// mEMALIGn: a block at an aligned address, cut out of a larger one.
module HeapAlign {
  import opened Words
  import opened HeapWords
  import opened HeapShape
  import opened HeapTags
  import opened HeapLinks
  import opened HeapState
  import opened HeapSteps
  import opened HeapFree
  import opened HeapMalloc
  import opened HeapRealloc

  /** `(m + alignment - 1) & -alignment` for a power of two */
  function AlignUp(m: nat, alignment: nat): nat
    requires alignment > 0
  {
    (m + alignment - 1) / alignment * alignment
  }

  lemma AlignUpIs(m: nat, alignment: nat)
    requires alignment > 0
    ensures AlignUp(m, alignment) % alignment == 0 && m <= AlignUp(m, alignment) < m + alignment
    ensures AlignUp(m, alignment) == m ==> m % alignment == 0
  {
    var q := (m + alignment - 1) / alignment;
    Exactly(q, alignment);
    assert m + alignment - 1 == q * alignment + (m + alignment - 1) % alignment;
  }

  lemma Exactly(q: nat, d: nat)
    requires d > 0
    ensures (q * d) % d == 0 && (q * d) / d == q
  {
    DivUnique(q * d, d, q, 0);
  }

  lemma DivUnique(x: nat, d: nat, q: nat, r: nat)
    requires d > 0 && x == q * d + r && r < d
    ensures x / d == q && x % d == r
  {
    var q', r' := x / d, x % d;
    assert x == q' * d + r';
    MulSucc(q, d);
    MulSucc(q', d);
    if q' > q { MulMono(q + 1, q', d); }
    if q' < q { MulMono(q' + 1, q, d); }
  }

  lemma PowerAligned(k: nat)
    requires k >= 3
    ensures Pow2(k) % 8 == 0
  {
    Pow2Add(3, k - 3);
    assert Pow2(3) == 8;
    Multiple(Pow2(k - 3));
  }

  lemma SmallPower(k: nat, r: nat)
    requires Pow2(k) <= 8 && r % 8 == 0
    ensures r % Pow2(k) == 0
  {
    assert Pow2(4) == 16;
    if k >= 4 { Pow2Mono(4, k); }
    var j := Eighths(r);
    assert k == 0 || k == 1 || k == 2 || k == 3;
    assert Pow2(k) == 1 || Pow2(k) == 2 || Pow2(k) == 4 || Pow2(k) == 8;
    assert r == 1 * (8 * j) && r == 2 * (4 * j) && r == 4 * (2 * j);
  }

  // ----------------------------------------------------------- cutting

  /** A block in use, cut in two blocks in use. */
  lemma CutValid(mem: Memory, s: Shape, p: int, nb: int, binblocks: nat)
    requires Tiled(s) && Binned(s) && Links(mem, s) && Tags(mem, s, NOGAP) && Live(s, p) && Indexed(binblocks, s.bins)
    requires nb % 8 == 0 && MINSIZE <= nb <= s.size[p] - MINSIZE
    ensures var r, rs := p + nb, s.size[p] - nb;
            var mem', t := mem[p + 4 := nb + Bit(mem, p)][r + 4 := rs + 1], Cut(s, p, nb);
            Tiled(t) && Binned(t) && Links(mem', t) && Tags(mem', t, NOGAP) && Live(t, p) && Live(t, r)
            && Indexed(binblocks, t.bins)
            && !Live(s, r) && LiveChange(s, t, NOGAP, r) && Keeps(mem, s, mem', t, p) && Moved(mem, p, mem', p, nb)
  {
    var r, rs := p + nb, s.size[p] - nb;
    var mem', t := mem[p + 4 := nb + Bit(mem, p)][r + 4 := rs + 1], Cut(s, p, nb);
    OpenGap(mem, s, p);
    CutInUse(mem, s, p, nb, binblocks);
    NextTells(mem, s, p);
    var n := Next(s, p);
    assert ChunkOK(s, p) && ChunkOK(s, n) && ChunkOK(t, r);
    TwoHeads(mem, p, nb + Bit(mem, p), r, rs + 1, n);
    CloseLive(mem', t, r);
  }

  /** Cuts off the leader; the rest of the block is block `newp`. */
  method CutLeader(h: Heap, p: int, leadsize: int, newsize: int)
    requires h.Valid() && Live(h.s, p) && leadsize % 8 == 0 && leadsize >= MINSIZE && newsize >= MINSIZE
             && leadsize + newsize == h.s.size[p]
    modifies h`mem, h`s
    ensures h.Valid() && h.s == Cut(old(h.s), p, leadsize) && Live(h.s, p) && Live(h.s, p + leadsize)
            && !Live(old(h.s), p + leadsize)
    ensures LiveChange(old(h.s), h.s, NOGAP, p + leadsize) && Keeps(old(h.mem), old(h.s), h.mem, h.s, p)
  {
    hide Tags, Links, Binned, Indexed, Keeps, Moved, LiveChange;
    ghost var mem0, s0 := h.mem, h.s;
    NextTells(mem0, s0, p);
    BlockTells(mem0, s0, p);
    CutValid(mem0, s0, p, leadsize, h.binblocks);
    var newp := p + leadsize;
    var n := newp + newsize;
    ChunkWords(s0, p, n, newp);
    SetAgain(mem0, n);
    h.mem := h.mem[newp + 4 := newsize + 1];
    h.mem := h.mem[n + 4 := Head(h.mem, n) / 2 * 2 + 1];
    h.mem := h.mem[p + 4 := leadsize + Head(h.mem, p) % 2];
    assert h.mem == mem0[p + 4 := leadsize + Bit(mem0, p)][newp + 4 := newsize + 1];
    h.s := Cut(s0, p, leadsize);
  }

  lemma ChunkWords(s: Shape, p: int, n: int, r: int)
    requires Tiled(s) && p in s.size && n == Next(s, p) && p < r < n && n in s.size
    ensures p != r && n != r && p != n
  {
  }

  /** Setting a bit that is set. */
  lemma SetAgain(mem: Memory, n: int)
    requires Bit(mem, n) == 1
    ensures n + 4 in mem && Head(mem, n) / 2 * 2 + 1 == mem[n + 4]
  {
  }

  /** Cuts off the spare room at the end. */
  method CutTail(h: Heap, p: int, nb: int, rsize: int)
    requires h.Valid() && Live(h.s, p) && nb % 8 == 0 && nb >= MINSIZE && rsize >= MINSIZE && nb + rsize == h.s.size[p]
    modifies h`mem, h`s
    ensures h.Valid() && h.s == Cut(old(h.s), p, nb) && Live(h.s, p) && Live(h.s, p + nb) && !Live(old(h.s), p + nb)
    ensures LiveChange(old(h.s), h.s, NOGAP, p + nb) && Keeps(old(h.mem), old(h.s), h.mem, h.s, p)
  {
    hide Tags, Links, Binned, Indexed, Keeps, Moved, LiveChange;
    ghost var mem0, s0 := h.mem, h.s;
    CutValid(mem0, s0, p, nb, h.binblocks);
    var remainder := p + nb;
    h.mem := h.mem[remainder + 4 := rsize + 1];
    h.mem := h.mem[p + 4 := nb + Head(h.mem, p) % 2];
    assert h.mem == mem0[p + 4 := nb + Bit(mem0, p)][remainder + 4 := rsize + 1];
    h.s := Cut(s0, p, nb);
  }

  // --------------------------------------------------------------- mEMALIGn

  /** Block `q` has come into use, at least `nb` bytes large. */
  ghost predicate Gained(mem: Memory, s: Shape, mem': Memory, s': Shape, q: int, nb: int) {
    !Live(s, q) && Live(s', q) && s'.size[q] >= nb && LiveChange(s, s', NOGAP, q) && Keeps(mem, s, mem', s', NOGAP)
  }

  /** The lower part is freed again. */
  lemma LeaderFreed(mem0: Memory, s0: Shape, mem1: Memory, s1: Shape, mem2: Memory, s2: Shape, mem3: Memory, s3: Shape,
                    p: int, lead: int)
    requires Tiled(s0) && Tiled(s1) && Gained(mem0, s0, mem1, s1, p, 0) && s2 == Cut(s1, p, lead) && Live(s2, p + lead)
             && !Live(s1, p + lead) && 0 < lead <= s1.size[p]
    requires LiveChange(s1, s2, NOGAP, p + lead) && Keeps(mem1, s1, mem2, s2, p) && Released(mem2, s2, mem3, s3, p)
    ensures Gained(mem0, s0, mem3, s3, p + lead, 0) && s3.size[p + lead] == s1.size[p] - lead
  {
    var q := p + lead;
    NoChunk(s0);
    assert ChunkOK(s1, p);
    KeepsStep(mem0, s0, mem1, s1, mem2, s2, NOGAP, p);
    KeepsStep(mem0, s0, mem2, s2, mem3, s3, NOGAP, p);
    assert Live(s1, q) <==> Live(s0, q) || q == p;
    assert Live(s3, q) && s3.size[q] == s2.size[q];
    forall x ensures Live(s3, x) <==> (Live(s0, x) && x != NOGAP) || (x == q && q != NOGAP) {
      assert Live(s3, x) <==> Live(s2, x) && x != p;
      assert Live(s2, x) <==> Live(s1, x) || x == q;
      assert Live(s1, x) <==> Live(s0, x) || x == p;
    }
  }

  /** The upper part is freed again. */
  lemma TailFreed(mem0: Memory, s0: Shape, mem1: Memory, s1: Shape, mem2: Memory, s2: Shape, mem3: Memory, s3: Shape,
                  p: int, nb: int)
    requires Tiled(s0) && Tiled(s1) && Gained(mem0, s0, mem1, s1, p, nb) && s2 == Cut(s1, p, nb) && Live(s2, p)
             && Live(s2, p + nb) && !Live(s1, p + nb) && nb > 0
    requires LiveChange(s1, s2, NOGAP, p + nb) && Keeps(mem1, s1, mem2, s2, p) && Released(mem2, s2, mem3, s3, p + nb)
    ensures Allocated(mem0, s0, mem3, s3, p, nb)
  {
    NoChunk(s0);
    assert ChunkOK(s1, p);
    KeepsStep(mem0, s0, mem1, s1, mem2, s2, NOGAP, p);
    assert Live(s1, p + nb) <==> Live(s0, p + nb) || p + nb == p;
    KeepsStep(mem0, s0, mem2, s2, mem3, s3, NOGAP, p + nb);
    assert Live(s3, p) && s3.size[p] == s2.size[p];
    forall x ensures Live(s3, x) <==> (Live(s0, x) && x != NOGAP) || (x == p && p != NOGAP) {
      assert Live(s3, x) <==> Live(s2, x) && x != p + nb;
      assert Live(s2, x) <==> Live(s1, x) || x == p + nb;
      assert Live(s1, x) <==> Live(s0, x) || x == p;
    }
  }

  /** Gives back what the request does not need. */
  method TrimTail(h: Heap, p: int, nb: int, ghost mem0: Memory, ghost s0: Shape)
    requires h.Valid() && nb % 8 == 0 && nb >= MINSIZE && Tiled(s0) && Gained(mem0, s0, h.mem, h.s, p, nb)
    modifies h`mem, h`s, h`top, h`brk, h`binblocks
    ensures h.Valid() && Allocated(mem0, s0, h.mem, h.s, p, nb)
    ensures Settled(old(h.brk), h.s.top, h.brk) && Cutdown(old(h.s), h.s, p, nb, h.brk)
  {
    hide Tags, Links, Binned, Indexed, Keeps, Released, LiveChange, FreedAny;
    ghost var mem1, s1 := h.mem, h.s;
    BlockTells(mem1, s1, p);
    assert ChunkOK(s1, p);
    var rsize := ChunkSize(h.mem, p) - nb;
    if rsize >= MINSIZE {
      CutTail(h, p, nb, rsize);
      ghost var mem2, s2 := h.mem, h.s;
      Free(h, p + nb + 8);
      TailFreed(mem0, s0, mem1, s1, mem2, s2, h.mem, h.s, p, nb);
    }
  }

  /** Frees a block that another one follows: `top` is not concerned. */
  method FreeLeader(h: Heap, p: int, ghost q: int)
    requires h.Valid() && Live(h.s, p) && Live(h.s, q) && p < q && p + 8 != 0
    modifies h`mem, h`s, h`top, h`brk, h`binblocks
    ensures h.Valid() && Released(old(h.mem), old(h.s), h.mem, h.s, p)
    ensures h.brk == old(h.brk) && FreedAny(old(h.s), h.s, p, h.brk)
  {
    hide Tags, Links, Binned, Indexed, Keeps, Trimmed, FreedAny;
    Free(h, p + 8);
    StillBelowTop(h.s, q);
  }

  lemma StillBelowTop(s: Shape, q: int)
    requires Tiled(s) && Live(s, q)
    ensures q < s.top
  {
    assert ChunkOK(s, q);
  }

  /** Of the block `c` what lies before the aligned address `r` has been freed: `r` is
      the first that leaves a chunk before it. */
  ghost predicate LeaderCut(s: Shape, t: Shape, c: int, r: int, alignment: nat, brk: int) {
    alignment > 0 && r % alignment == 0 && c + 8 + MINSIZE <= r < c + 8 + MINSIZE + alignment
    && c in s.size && FreedAny(Cut(s, c, r - 8 - c), t, c, brk)
  }

  /** What mEMALIGn does to the chunks: what is not needed, before and after the
      aligned spot in the block that mALLOc finds, is freed. */
  ghost predicate AlignedAs(s: Shape, t: Shape, r: int, alignment: nat, nb: nat, brk: int, u: Shape, c: int, more: int,
                            v: Shape, brk1: int) {
    Chosen(s, c, PadRequest(nb + alignment + MINSIZE)) && Carved(s, u, c, PadRequest(nb + alignment + MINSIZE), more)
    && (if alignment > 0 && (c + 8) % alignment == 0 then r == c + 8
      && v == u else LeaderCut(u, v, c, r, alignment, brk1))
    && Cutdown(v, t, r - 8, nb, brk)
  }

  /** Finds the aligned spot inside the block and gives back what is before it. */
  method CutToAlign(h: Heap, m: int, alignment: nat, ghost nb: int, ghost mem0: Memory, ghost s0: Shape)
      returns (newp: int)
    requires h.Valid() && Tiled(s0) && Gained(mem0, s0, h.mem, h.s, m - 8, nb + alignment + 8 + MINSIZE)
    requires alignment >= MINSIZE && alignment % 8 == 0 && m % alignment != 0 && nb >= 0
    modifies h`mem, h`s, h`top, h`brk, h`binblocks
    ensures h.Valid() && Gained(mem0, s0, h.mem, h.s, newp, nb) && (newp + 8) % alignment == 0 && newp >= 0
    ensures h.brk == old(h.brk) && LeaderCut(old(h.s), h.s, m - 8, newp + 8, alignment, h.brk)
  {
    hide Tags, Links, Binned, Indexed, Keeps, Released, LiveChange, FreedAny;
    ghost var mem1, s1 := h.mem, h.s;
    var p := m - 8;
    assert ChunkOK(s1, p);
    BlockTells(mem1, s1, p);
    AlignUpIs(m, alignment);
    AlignedSpot(m, alignment);
    var br := AlignUp(m, alignment) - 8;
    if br - p < MINSIZE { br := br + alignment; }
    newp := br;
    var leadsize := br - p;
    var newsize := ChunkSize(h.mem, p) - leadsize;
    CutLeader(h, p, leadsize, newsize);
    ghost var mem2, s2 := h.mem, h.s;
    FreeLeader(h, p, newp);
    LeaderFreed(mem0, s0, mem1, s1, mem2, s2, h.mem, h.s, p, leadsize);
  }

  /** Both candidates are aligned, and the distance to them is in whole words. */
  lemma AlignedSpot(m: nat, alignment: nat)
    requires m % 8 == 0 && alignment % 8 == 0 && alignment >= MINSIZE && m % alignment != 0
    ensures var a := AlignUp(m, alignment);
            a % alignment == 0 && (a + alignment) % alignment == 0 && a > m && (a - m) % 8 == 0
            && (a + alignment - m) % 8 == 0
  {
    AlignUpIs(m, alignment);
    var a := AlignUp(m, alignment);
    var q := a / alignment;
    assert a == q * alignment;
    MulSucc(q, alignment);
    Exactly(q + 1, alignment);
    var k := Eighths(alignment);
    var j := Eighths(m);
    assert a == 8 * (q * k) by { assert q * (8 * k) == 8 * (q * k); }
    assert a - m == 8 * (q * k - j) && a + alignment - m == 8 * (q * k + k - j);
    Multiple(q * k - j);
    Multiple(q * k + k - j);
  }

  /** What mEMALIGn asks mALLOc for, before it is cut to a word. */
  function AlignTotal(alignment: nat, bytes: nat): nat {
    PadRequest(bytes) + alignment + MINSIZE
  }

  /** The padded size mALLOc looks for. */
  function MallocSize(alignment: nat, bytes: nat): int {
    PadRequest(if alignment <= 8 then bytes else AlignTotal(alignment, bytes))
  }

  /** The sum does not overflow in a way that mALLOc cannot tell from a small
      request. */
  predicate TotalHolds(alignment: nat, bytes: nat) {
    bytes >= LONG_LIMIT || alignment <= 8
    || AlignTotal(alignment, bytes) <= 0x7FFF_FFF4 || LONG_LIMIT <= AlignTotal(alignment, bytes) < WORD_LIMIT
  }

  /** Under exactly this condition mALLOc refuses the sum or gives room for it. */
  lemma TotalRight(alignment: nat, bytes: nat)
    requires 8 < alignment <= LONG_LIMIT && alignment % 8 == 0 && bytes < LONG_LIMIT
    ensures var t := AlignTotal(alignment, bytes);
            (t % WORD_LIMIT >= LONG_LIMIT || PadRequest(t % WORD_LIMIT) >= t) <==> TotalHolds(alignment, bytes)
  {
    PadRange(bytes);
    var t := AlignTotal(alignment, bytes);
    assert t % WORD_LIMIT == if t < WORD_LIMIT then t else t - WORD_LIMIT;
  }

  /** Aligned to sixteen bytes, a request of a little less than two gigabytes is
      asked for as one of a minimal chunk. */
  lemma OverflowingAlign()
    ensures !TotalHolds(16, 0x7FFF_FFD4) && PadRequest(AlignTotal(16, 0x7FFF_FFD4)) == MINSIZE
  {
  }

  /** mEMALIGn has to answer 0. */
  ghost predicate CannotAlign(s: Shape, brk: int, hi: int, alignment: nat, bytes: nat) {
    bytes >= LONG_LIMIT
    || if alignment <= 8 then Refused(s, brk, hi, PadRequest(bytes))
       else AlignTotal(alignment, bytes) >= LONG_LIMIT || Refused(s, brk, hi, PadRequest(AlignTotal(alignment, bytes)))
  }

  /** mALLOc has taken the block from chunk `c`. */
  ghost predicate ServedBy(s: Shape, t: Shape, c: int, nb: int) {
    Chosen(s, c, nb) && exists more :: Carved(s, t, c, nb, more)
  }

  /** Small alignments are left to mALLOc. */
  ghost predicate Aligns(s: Shape, t: Shape, r: int, alignment: nat, nb: nat, brk: int) {
    if alignment <= 8 then ServedBy(s, t, r - 8, nb)
    else exists u, c, more, v, brk1 :: AlignedAs(s, t, r, alignment, nb, brk, u, c, more, v, brk1)
  }

  /** mEMALIGn: the block is aligned as asked, and its size is that of the
      padded request. */
  method Memalign(h: Heap, alignment0: nat, bytes: nat) returns (r: int)
    requires h.Valid() && bytes < WORD_LIMIT && (exists k: nat :: alignment0 == Pow2(k))
             && TotalHolds(alignment0, bytes)
    modifies h`mem, h`s, h`top, h`brk, h`binblocks
    ensures h.Valid()
    ensures r == 0 <==> CannotAlign(old(h.s), old(h.brk), h.hi, alignment0, bytes)
    ensures r != 0 ==> r % alignment0 == 0 && Allocated(old(h.mem), old(h.s), h.mem, h.s, r - 8, PadRequest(bytes))
    ensures r == 0 ==> Released(old(h.mem), old(h.s), h.mem, h.s, NOGAP)
    ensures r == 0 ==> h.brk == old(h.brk) && h.s.size == old(h.s).size
    ensures r != 0 ==> Settled(Extended(old(h.s), old(h.brk), MallocSize(alignment0, bytes)), h.s.top, h.brk)
    ensures r != 0 ==> Aligns(old(h.s), h.s, r, alignment0, PadRequest(bytes), h.brk)
    ensures r == 0 ==>
              h.s == if bytes >= LONG_LIMIT || (alignment0 > 8 && AlignTotal(alignment0, bytes) >= LONG_LIMIT)
                     then old(h.s) else Passed(old(h.s))
  {
    hide Tags, Links, Binned, Indexed, Keeps, Released, LiveChange, PadRequest, Refused, Extended, Trimmed, Chosen,
         Carved, Passed, LeaderCut, Cutdown;
    ghost var mem0, s0 := h.mem, h.s;
    ghost var k: nat :| alignment0 == Pow2(k);
    if Signed(bytes) < 0 {
      TopTells(mem0, s0);
      return 0;
    }
    PadRange(bytes);
    if alignment0 <= 8 {
      r := Malloc(h, bytes);
      if r != 0 {
        assert ChunkOK(h.s, r - 8);
        SmallPower(k, r);
        assert Chosen(s0, r - 8, PadRequest(bytes)) && Carved(s0, h.s, r - 8, PadRequest(bytes), h.brk - old(h.brk));
      }
      return;
    }
    LargePower(k);
    var alignment := if alignment0 < MINSIZE then MINSIZE else alignment0;
    var nb := PadRequest(bytes);
    var m := Malloc(h, nb + alignment + MINSIZE);
    if m == 0 { return 0; }
    PadLarger(nb + alignment + MINSIZE);
    ghost var mem1, s1, brk1 := h.mem, h.s, h.brk;
    var p := m - 8;
    assert ChunkOK(s1, p);
    if m % alignment != 0 {
      p := CutToAlign(h, m, alignment, nb, mem0, s0);
    }
    ghost var s2, brk2 := h.s, h.brk;
    TrimTail(h, p, nb, mem0, s0);
    r := p + 8;
    assert AlignedAs(s0, h.s, r, alignment, nb, h.brk, s1, m - 8, brk1 - old(h.brk), s2, brk2);
  }

  lemma LargePower(k: nat)
    requires Pow2(k) > 8
    ensures Pow2(k) >= MINSIZE && Pow2(k) % 8 == 0
  {
    assert Pow2(3) == 8 && Pow2(4) == 16;
    if k < 4 { Pow2Mono(k, 3); } else { Pow2Mono(4, k); PowerAligned(k); }
  }

  lemma PadLarger(t: nat)
    requires t % 8 == 0 && MINSIZE <= t <= 0x7FFF_FFF4
    ensures PadRequest(t) == t + 8
  {
  }
}
