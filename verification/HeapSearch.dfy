// Finding a free chunk: the exact-fit bins and the indexed best-fit search.
module HeapSearch {
  import opened Words
  import opened HeapWords
  import opened HeapShape
  import opened HeapTags
  import opened HeapLinks
  import opened HeapState
  import opened HeapSteps

  // ------------------------------------------------------------ what is found

  /** A chunk of the bins, the last remainder aside, that is large enough. */
  predicate Fits(s: Shape, c: int, nb: int) {
    c in s.home && c in s.size && s.home[c] >= 2 && s.size[c] >= nb
  }

  /** The best fit. */
  ghost predicate Smallest(s: Shape, v: int, nb: int) {
    Fits(s, v, nb) && forall c {:trigger Fits(s, c, nb)} :: Fits(s, c, nb) ==> s.size[v] <= s.size[c]
  }

  ghost predicate NoneFits(s: Shape, nb: int) {
    forall c {:trigger Fits(s, c, nb)} :: !Fits(s, c, nb)
  }

  /** A fit that is taken whole before anything else is tried: for small requests
      any that leaves no chunk over, for others one of the bin of the request. */
  predicate Exact(s: Shape, c: int, nb: int) {
    Fits(s, c, nb) && s.size[c] < nb + MINSIZE
    && (nb < MAX_SMALLBIN_SIZE - 8 || s.home[c] == BinIndex(nb))
  }

  ghost predicate NoneExact(s: Shape, nb: int) {
    forall c {:trigger Exact(s, c, nb)} {:trigger Fits(s, c, nb)} :: !Exact(s, c, nb)
  }

  /** Every fit is in bin `i` or a higher one. */
  ghost predicate FitsFrom(s: Shape, nb: int, i: int) {
    forall c {:trigger Fits(s, c, nb)} :: Fits(s, c, nb) ==> s.home[c] >= i
  }

  /** The bins from `i` on hold fits only, or else bin `i` holds one. */
  ghost predicate Promising(s: Shape, nb: int, i: int) {
    nb >= 0 && FitsFrom(s, nb, i) && i >= BinIndex(nb)
    && (i == BinIndex(nb) ==> exists c :: Fits(s, c, nb) && s.home[c] == i)
  }

  /** A chunk in a bin above that of the request fits, and is larger than any
      fit of a lower bin. */
  lemma HigherFits(s: Shape, c: int, nb: int)
    requires Tiled(s) && Binned(s) && c in s.home && nb >= 0 && s.home[c] > BinIndex(nb) && s.home[c] >= 2
    ensures Fits(s, c, nb) && s.size[c] > nb
  {
    assert BinOK(s, s.home[c]) && c in s.bins[s.home[c]];
    assert Member(s, s.home[c], c);
    if s.size[c] <= nb { BinIndexMonotone(s.size[c], nb); }
  }

  lemma FitBin(s: Shape, c: int, nb: int)
    requires Tiled(s) && Binned(s) && Fits(s, c, nb) && nb >= 0
    ensures s.home[c] == BinIndex(s.size[c]) >= BinIndex(nb) && s.home[c] < NAV && c in s.bins[s.home[c]]
  {
    assert BinOK(s, s.home[c]) && c in s.bins[s.home[c]];
    assert Member(s, s.home[c], c);
    BinIndexMonotone(nb, s.size[c]);
  }

  // ----------------------------------------------------------------- one bin

  /** Of the chunks of its bin that are large enough it is the one furthest back. */
  ghost predicate Rearmost(s: Shape, v: int, nb: int) {
    v in s.home && exists k :: TailSmall(s, s.home[v], k, nb) && 0 <= k && s.bins[s.home[v]][k] == v
  }

  /** From the back of bin `i` to the first chunk that is large enough. */
  method FirstFit(h: Heap, nb: int, i: int) returns (victim: int)
    requires h.Valid() && 2 <= i < NAV && nb >= 0
    ensures victim != 0 ==>
              Fits(h.s, victim, nb) && h.s.home[victim] == i && ChunkSize(h.mem, victim) == h.s.size[victim]
    ensures victim != 0 ==> forall c :: Fits(h.s, c, nb) && h.s.home[c] == i ==> h.s.size[victim] <= h.s.size[c]
    ensures victim == 0 ==> forall c :: Fits(h.s, c, nb) ==> h.s.home[c] != i
    ensures victim != 0 ==> Rearmost(h.s, victim, nb)
  {
    NoChunk(h.s);
    ghost var mem, s := h.mem, h.s;
    assert |s.bins| == NAV;
    hide Tags, Links, Tiled, Binned, Indexed, Fits, Ring, Fd, Bk, ChunkSize;
    ghost var k: int := |s.bins[i]| - 1;
    RingBack(mem, s, i, |s.bins[i]|);
    victim := Bk(h.mem, BinAt(i));
    TailStarts(s, i, nb);
    while victim != BinAt(i)
      invariant -1 <= k < |s.bins[i]| && victim == Ring(BinAt(i), s.bins[i])[k + 1] && TailSmall(s, i, k, nb)
      decreases k
    {
      AtBack(s, i, k);
      MemberHead(mem, s, NOGAP, i, k);
      if ChunkSize(h.mem, victim) >= nb {
        TailFits(s, i, k, nb);
        return;
      }
      RingBack(mem, s, i, k);
      TailGrows(s, i, k, nb);
      victim, k := Bk(h.mem, victim), k - 1;
    }
    AtBack(s, i, k);
    NoTail(s, i, nb);
    victim := 0;
  }

  /** The members of the bin after the `k`-th are too small. */
  ghost predicate TailSmall(s: Shape, i: int, k: int, nb: int) {
    0 <= i < |s.bins| && -1 <= k < |s.bins[i]| && forall j :: k < j < |s.bins[i]| ==>
        s.bins[i][j] in s.size && s.size[s.bins[i][j]] < nb
  }

  lemma TailStarts(s: Shape, i: int, nb: int)
    requires 0 <= i < |s.bins|
    ensures TailSmall(s, i, |s.bins[i]| - 1, nb)
  {
  }

  lemma TailGrows(s: Shape, i: int, k: int, nb: int)
    requires TailSmall(s, i, k, nb) && k >= 0 && s.bins[i][k] in s.size && s.size[s.bins[i][k]] < nb
    ensures TailSmall(s, i, k - 1, nb)
  {
  }

  lemma RingBack(mem: Memory, s: Shape, i: int, k: int)
    requires Links(mem, s) && 1 <= i < NAV && 0 <= k <= |s.bins[i]|
    ensures Bk(mem, Ring(BinAt(i), s.bins[i])[k + 1]) == Ring(BinAt(i), s.bins[i])[k]
    ensures Ring(BinAt(i), s.bins[i])[|s.bins[i]| + 1] == BinAt(i)
  {
    RingLink(mem, s, i, k);
  }

  lemma AtBack(s: Shape, i: int, k: int)
    requires Tiled(s) && Binned(s) && 1 <= i < NAV && -1 <= k < |s.bins[i]|
    ensures Ring(BinAt(i), s.bins[i])[k + 1] == BinAt(i) <==> k == -1
    ensures k >= 0 ==> Ring(BinAt(i), s.bins[i])[k + 1] == s.bins[i][k]
  {
    RingNode(s, i, k + 1);
  }

  lemma TailFits(s: Shape, i: int, k: int, nb: int)
    requires Tiled(s) && Binned(s) && 2 <= i < NAV && TailSmall(s, i, k, nb) && k >= 0 && s.bins[i][k] in s.size
             && s.size[s.bins[i][k]] >= nb
    ensures var v := s.bins[i][k];
            v != 0 && Fits(s, v, nb) && s.home[v] == i && forall c :: Fits(s, c, nb) && s.home[c] == i ==>
                s.size[v] <= s.size[c]
    ensures Rearmost(s, s.bins[i][k], nb)
  {
    var v := s.bins[i][k];
    assert BinOK(s, i) && Member(s, i, v) && ChunkOK(s, v);
    forall c | Fits(s, c, nb) && s.home[c] == i ensures s.size[v] <= s.size[c] {
      var j :| 0 <= j < |s.bins[i]| && s.bins[i][j] == c;
    }
  }

  lemma NoTail(s: Shape, i: int, nb: int)
    requires Tiled(s) && Binned(s) && 2 <= i < NAV && TailSmall(s, i, -1, nb)
    ensures forall c :: Fits(s, c, nb) ==> s.home[c] != i
  {
    forall c | Fits(s, c, nb) ensures s.home[c] != i {
      assert c in s.bins[s.home[c]];
      if c in s.bins[i] { InTail(s, i, nb, c); }
    }
  }

  lemma InTail(s: Shape, i: int, nb: int, c: int)
    requires TailSmall(s, i, -1, nb) && c in s.bins[i]
    ensures c in s.size && s.size[c] < nb
  {
  }

  // ------------------------------------------------------------- exact fits

  /** What the first part of mALLOc finds: the chunk to take, or the bin to
      search from. */
  ghost predicate ExactResult(s: Shape, nb: int, victim: int, idx: int) {
    if victim != 0 then Smallest(s, victim, nb) && Exact(s, victim, nb) && Rearmost(s, victim, nb)
    else 4 <= idx < NAV && Promising(s, nb, idx) && NoneExact(s, nb)
  }

  method ExactFit(h: Heap, nb: int) returns (victim: int, idx: int)
    requires h.Valid() && nb % 8 == 0 && nb >= MINSIZE
    ensures ExactResult(h.s, nb, victim, idx)
  {
    if nb < MAX_SMALLBIN_SIZE - 8 {
      victim, idx := ExactSmall(h, nb);
    } else {
      victim, idx := ExactLarge(h, nb);
    }
  }

  /** The bin of the request and the next one hold chunks of one size each. */
  method ExactSmall(h: Heap, nb: int) returns (victim: int, idx: int)
    requires h.Valid() && nb % 8 == 0 && MINSIZE <= nb < MAX_SMALLBIN_SIZE - 8
    ensures ExactResult(h.s, nb, victim, idx)
  {
    SmallIndex(nb);
    idx := nb / 8;
    var q := BinAt(idx);
    EmptyRing(h.mem, h.s, idx);
    EmptyRing(h.mem, h.s, idx + 1);
    victim := Bk(h.mem, q);
    if victim == q {
      q := q + 8;
      victim := Bk(h.mem, q);
      if victim == q {
        SmallEmpty(h.s, nb);
        victim, idx := 0, idx + 2;
        return;
      }
      SmallFound(h.s, nb, idx + 1, victim);
    } else {
      SmallFound(h.s, nb, idx, victim);
    }
  }

  lemma NextSmall(nb: int)
    requires nb % 8 == 0 && MINSIZE <= nb < MAX_SMALLBIN_SIZE - 8
    ensures BinIndex(nb + 8) == nb / 8 + 1
  {
  }

  lemma HigherBin(x: int, y: int)
    requires x >= 0 && y >= 0 && BinIndex(x) > BinIndex(y)
    ensures x > y
  {
    if x <= y { BinIndexMonotone(x, y); }
  }

  lemma TwoSizes(size: int, nb: int)
    requires size % 8 == 0 && nb % 8 == 0 && size > nb + 8
    ensures size >= nb + 16
  {
    var i, j := size / 8, nb / 8;
    assert size == 8 * i && nb == 8 * j;
  }

  lemma SmallIndex(nb: int)
    requires nb % 8 == 0 && MINSIZE <= nb < MAX_SMALLBIN_SIZE - 8
    ensures BinIndex(nb) == nb / 8 && 2 <= nb / 8 <= 62 && nb == 8 * (nb / 8)
  {
  }

  lemma SmallFound(s: Shape, nb: int, i: int, victim: int)
    requires Tiled(s) && Binned(s) && nb % 8 == 0 && MINSIZE <= nb < MAX_SMALLBIN_SIZE - 8 && nb / 8 <= i <= nb / 8 + 1
    requires s.bins[i] != [] && victim == s.bins[i][|s.bins[i]| - 1] && (i == nb / 8 || s.bins[nb / 8] == [])
    ensures victim != 0 && Smallest(s, victim, nb) && s.size[victim] < nb + MINSIZE && Rearmost(s, victim, nb)
  {
    SmallIndex(nb);
    TailStarts(s, i, nb);
    assert BinOK(s, i) && Member(s, i, victim) && ChunkOK(s, victim);
    BinIndexRange(s.size[victim]);
    SmallBinsExact(s.size[victim], s.size[victim]);
    forall c | Fits(s, c, nb) ensures s.size[victim] <= s.size[c] {
      FitBin(s, c, nb);
      assert s.home[c] >= i;
      if s.size[c] < s.size[victim] {
        BinIndexMonotone(s.size[c], s.size[victim]);
        assert ChunkOK(s, c);
        SmallBinsExact(s.size[c], s.size[victim]);
      }
    }
  }

  lemma SmallEmpty(s: Shape, nb: int)
    requires Tiled(s) && Binned(s) && nb % 8 == 0 && MINSIZE <= nb < MAX_SMALLBIN_SIZE - 8
    requires s.bins[nb / 8] == [] && s.bins[nb / 8 + 1] == []
    ensures ExactResult(s, nb, 0, nb / 8 + 2)
  {
    SmallIndex(nb);
    forall c | Fits(s, c, nb) ensures s.home[c] >= nb / 8 + 2 && s.size[c] >= nb + MINSIZE {
      FitBin(s, c, nb);
      assert BinOK(s, s.home[c]) && c in s.bins[s.home[c]];
      assert Member(s, s.home[c], c);
      NextSmall(nb);
      assert ChunkOK(s, c);
      HigherBin(s.size[c], nb + 8);
      TwoSizes(s.size[c], nb);
    }
  }

  method ExactLarge(h: Heap, nb: int) returns (victim: int, idx: int)
    requires h.Valid() && nb >= MAX_SMALLBIN_SIZE - 8
    ensures ExactResult(h.s, nb, victim, idx)
  {
    hide Rearmost;
    BinIndexRange(nb);
    LargeIndex(nb);
    idx := BinIndex(nb);
    victim := FirstFit(h, nb, idx);
    LargeFits(h.s, nb);
    if victim != 0 {
      LargeFound(h.s, nb, victim);
      if ChunkSize(h.mem, victim) - nb >= MINSIZE {
        victim := 0;
      }
    } else {
      idx := idx + 1;
    }
  }

  lemma LargeIndex(nb: int)
    requires nb >= MAX_SMALLBIN_SIZE - 8
    ensures BinIndex(nb) >= 63
  {
  }

  lemma LargeFits(s: Shape, nb: int)
    requires Tiled(s) && Binned(s) && nb >= 0
    ensures FitsFrom(s, nb, BinIndex(nb))
  {
    forall c | Fits(s, c, nb) ensures s.home[c] >= BinIndex(nb) { FitBin(s, c, nb); }
  }

  /** The best fit of the lowest bin that has one is the best fit of all. */
  lemma LargeFound(s: Shape, nb: int, v: int)
    requires Tiled(s) && Binned(s) && nb >= 0 && Fits(s, v, nb) && FitsFrom(s, nb, s.home[v])
    requires forall c :: Fits(s, c, nb) && s.home[c] == s.home[v] ==> s.size[v] <= s.size[c]
    ensures Smallest(s, v, nb)
  {
    FitBin(s, v, nb);
    forall c | Fits(s, c, nb) ensures s.size[v] <= s.size[c] {
      FitBin(s, c, nb);
      if s.size[c] < s.size[v] { BinIndexMonotone(s.size[c], s.size[v]); }
    }
  }

  // ------------------------------------------------------ the indexed search

  /** No bin from `i` up to `j` holds anything. */
  ghost predicate EmptyBins(s: Shape, i: int, j: int) {
    |s.bins| == NAV && 0 <= i <= j <= NAV && forall x {:trigger s.bins[x]} :: i <= x < j ==> s.bins[x] == []
  }

  /** A bin without a fit, in the range of the search, is empty; the search goes
      on with the next one. */
  lemma BinExhausted(s: Shape, nb: int, i: int)
    requires Tiled(s) && Binned(s) && 2 <= i < NAV && Promising(s, nb, i) && forall c :: Fits(s, c, nb) ==>
               s.home[c] != i
    ensures s.bins[i] == [] && Promising(s, nb, i + 1)
  {
    if s.bins[i] != [] {
      var c := s.bins[i][0];
      assert BinOK(s, i) && Member(s, i, c);
      HigherFits(s, c, nb);
    }
  }

  /** Empty bins may be skipped. */
  lemma BinsSkipped(s: Shape, nb: int, i: int, j: int)
    requires Tiled(s) && Binned(s) && 2 <= i < j && Promising(s, nb, i) && EmptyBins(s, i, j)
    ensures Promising(s, nb, j)
  {
    forall c | Fits(s, c, nb) ensures s.home[c] >= j {
      FitBin(s, c, nb);
      assert s.bins[s.home[c]] != [];
    }
  }

  /** The bins of a block that is not marked are empty. */
  lemma BlockEmpty(binblocks: nat, s: Shape, k: nat, i: int)
    requires Indexed(binblocks, s.bins) && |s.bins| == NAV && 2 <= i <= 4 * k + 4 <= NAV && i >= 4 * k
             && !HasBit(binblocks, k)
    ensures EmptyBins(s, i, 4 * k + 4)
  {
    forall x | i <= x < 4 * k + 4 ensures s.bins[x] == [] { assert x / BINBLOCKWIDTH == k; }
  }

  /** The rest of the block that bin `idx0` is in. */
  method ScanBlock(h: Heap, nb: int, idx0: int) returns (victim: int, idx: int)
    requires h.Valid() && nb >= 0 && 4 <= idx0 < NAV && Promising(h.s, nb, idx0)
    ensures victim != 0 ==>
              Smallest(h.s, victim, nb) && Rearmost(h.s, victim, nb) && ChunkSize(h.mem, victim) == h.s.size[victim]
    ensures victim == 0 ==> idx == idx0 / 4 * 4 + 4 && EmptyBins(h.s, idx0, idx) && Promising(h.s, nb, idx)
  {
    hide Tags, Links, Tiled, Binned, Indexed, Promising, Smallest, Fits, Rearmost;
    ghost var s := h.s;
    assert |s.bins| == NAV by { BinCount(s); }
    idx := idx0;
    victim := FirstFit(h, nb, idx);
    ScanResult(s, nb, idx, victim);
    idx := idx + 1;
    while victim == 0 && idx % 4 != 0
      invariant idx0 < idx <= idx0 / 4 * 4 + 4
      invariant victim == 0 ==> EmptyBins(s, idx0, idx) && Promising(s, nb, idx)
      invariant victim != 0 ==>
                  Smallest(s, victim, nb) && Rearmost(s, victim, nb) && victim in s.size
                  && ChunkSize(h.mem, victim) == s.size[victim]
      decreases NAV - idx
    {
      victim := FirstFit(h, nb, idx);
      ScanResult(s, nb, idx, victim);
      idx := idx + 1;
    }
    if victim == 0 { BlockEnd(idx0, idx); }
  }

  lemma BinCount(s: Shape)
    requires Binned(s)
    ensures |s.bins| == NAV
  {
  }

  lemma BlockEnd(idx0: int, idx: int)
    requires idx0 < idx <= idx0 / 4 * 4 + 4 && idx % 4 == 0
    ensures idx == idx0 / 4 * 4 + 4
  {
  }

  lemma ScanResult(s: Shape, nb: int, idx: int, victim: int)
    requires Tiled(s) && Binned(s) && 2 <= idx < NAV && Promising(s, nb, idx)
    requires victim != 0 ==> Fits(s, victim, nb) && s.home[victim] == idx
    requires victim != 0 ==> forall c :: Fits(s, c, nb) && s.home[c] == idx ==> s.size[victim] <= s.size[c]
    requires victim == 0 ==> forall c :: Fits(s, c, nb) ==> s.home[c] != idx
    ensures victim != 0 ==> Smallest(s, victim, nb) && victim in s.size
    ensures victim == 0 ==> s.bins[idx] == [] && Promising(s, nb, idx + 1)
  {
    if victim != 0 { LargeFound(s, nb, victim); } else { BinExhausted(s, nb, idx); }
  }

  /** Clears the bit of a block if all its bins are empty, going back from the
      first bin scanned. */
  method ClearBlock(h: Heap, startidx0: int)
    requires h.Valid() && 4 <= startidx0 < NAV && EmptyBins(h.s, startidx0, startidx0 / 4 * 4 + 4)
    modifies h`binblocks
    ensures h.Valid() && forall k: nat :: k != startidx0 / 4 ==>
              (HasBit(h.binblocks, k) <==> HasBit(old(h.binblocks), k))
  {
    BinCount(h.s);
    hide Tags, Links, Tiled, Binned, Indexed, EmptyBins, HasBit, Fd, Bk;
    var startidx := startidx0;
    ghost var blk := startidx0 / 4;
    while true
      invariant 4 * blk <= startidx <= startidx0 && EmptyBins(h.s, startidx, 4 * blk + 4) && blk == startidx0 / 4
      invariant h.binblocks == old(h.binblocks) && h.Valid()
      decreases startidx
    {
      if startidx % 4 == 0 {
        assert startidx == 4 * blk;
        ClearIndex(h.binblocks, h.s, blk);
        h.binblocks := ClearBit(h.binblocks, startidx / 4);
        break;
      }
      startidx := startidx - 1;
      EmptyRing(h.mem, h.s, startidx);
      if Fd(h.mem, BinAt(startidx)) != BinAt(startidx) { break; }
      EmptyMore(h.s, startidx, 4 * blk + 4);
    }
  }

  lemma EmptyMore(s: Shape, i: int, j: int)
    requires EmptyBins(s, i + 1, j) && 0 <= i < |s.bins| && s.bins[i] == []
    ensures EmptyBins(s, i, j)
  {
  }

  lemma ClearIndex(binblocks: nat, s: Shape, k: nat)
    requires Indexed(binblocks, s.bins) && EmptyBins(s, 4 * k, 4 * k + 4)
    ensures Indexed(ClearBit(binblocks, k), s.bins)
    ensures forall j: nat :: j != k ==> (HasBit(ClearBit(binblocks, k), j) <==> HasBit(binblocks, j))
  {
    forall j: nat
      ensures HasBit(ClearBit(binblocks, k), j) <==> j != k && HasBit(binblocks, j)
    {
      ClearBitIs(binblocks, k, j);
    }
    BitBelow(binblocks, k);
    forall i | 2 <= i < NAV && i < |s.bins|
    && s.bins[i] != [] ensures HasBit(ClearBit(binblocks, k), i / BINBLOCKWIDTH) {
      assert HasBit(binblocks, i / BINBLOCKWIDTH);
      assert i / BINBLOCKWIDTH == k ==> 4 * k <= i < 4 * k + 4;
    }
  }

  /** To the next marked block, `block` being `1 << k`. */
  method NextBlock(h: Heap, nb: int, k0: nat) returns (k: nat)
    requires h.Valid() && 1 <= k0 < 32 && Pow2(k0) <= h.binblocks && Promising(h.s, nb, 4 * k0)
    ensures k0 <= k < 32 && HasBit(h.binblocks, k) && Promising(h.s, nb, 4 * k)
  {
    hide Tags, Links, Promising;
    k := k0;
    ReachesBit(h.binblocks, k);
    while !HasBit(h.binblocks, k)
      invariant k0 <= k < 32 && Shr(k, h.binblocks) >= 1 && Promising(h.s, nb, 4 * k)
      decreases 32 - k
    {
      SkipBit(h.binblocks, k);
      BlockEmpty(h.binblocks, h.s, k, 4 * k);
      BinsSkipped(h.s, nb, 4 * k, 4 * k + 4);
      k := k + 1;
      BitInWord(h.binblocks, k);
    }
  }

  /** A vector below `1 << k` has no block from `k` on: nothing is left to find. */
  lemma NothingAbove(binblocks: nat, s: Shape, nb: int, k: nat, i: int)
    requires Tiled(s) && Binned(s) && Indexed(binblocks, s.bins) && Promising(s, nb, i) && i >= 2
             && (Pow2(k) > binblocks || k >= 32) && i >= 4 * k
    ensures NoneFits(s, nb)
  {
    forall c ensures !Fits(s, c, nb) {
      if Fits(s, c, nb) {
        FitBin(s, c, nb);
        assert s.bins[s.home[c]] != [];
        var j := s.home[c] / BINBLOCKWIDTH;
        ReachesBit(binblocks, k);
        BitReached(binblocks, k, j);
      }
    }
  }

  lemma BitInWord(binblocks: nat, k: nat)
    requires binblocks < Pow2(32) && Shr(k, binblocks) >= 1
    ensures k < 32
  {
    hide Pow2;
    if k >= 32 { NoBitAbove(binblocks, 32, k); }
  }

  lemma BlockSkipped(binblocks: nat, s: Shape, nb: int, i: int, k: nat)
    requires Tiled(s) && Binned(s) && Indexed(binblocks, s.bins) && Promising(s, nb, i) && 4 <= i < NAV && k == i / 4
    requires Pow2(k) <= binblocks && !HasBit(binblocks, k)
    ensures k + 1 < 32 && Pow2(k + 1) <= binblocks && Promising(s, nb, 4 * (k + 1))
  {
    ReachesBit(binblocks, k);
    SkipBit(binblocks, k);
    ReachesBit(binblocks, k + 1);
    BitInWord(binblocks, k + 1);
    BlockEmpty(binblocks, s, k, i);
    BinsSkipped(s, nb, i, 4 * k + 4);
  }

  /** The search over all bins from `idx0` on, block by block. */
  method SearchBins(h: Heap, nb: int, idx0: int) returns (victim: int)
    requires h.Valid() && nb >= 0 && 4 <= idx0 < NAV && Promising(h.s, nb, idx0)
    modifies h`binblocks
    ensures h.Valid()
    ensures victim != 0 ==>
              Smallest(h.s, victim, nb) && Rearmost(h.s, victim, nb) && ChunkSize(h.mem, victim) == h.s.size[victim]
    ensures victim == 0 ==> NoneFits(h.s, nb)
  {
    hide Tags, Links, Tiled, Binned, Indexed, Promising, Smallest, NoneFits, HasBit, Pow2, Fits, Rearmost;
    var k: nat := idx0 / 4;
    victim := 0;
    if Pow2(k) > h.binblocks {
      NothingAbove(h.binblocks, h.s, nb, k, idx0);
      return;
    }
    var idx := idx0;
    if !HasBit(h.binblocks, k) {
      BlockSkipped(h.binblocks, h.s, nb, idx0, k);
      k := NextBlock(h, nb, k + 1);
      idx := 4 * k;
    }
    while true
      invariant h.Valid() && 4 <= idx < NAV && k == idx / 4 < 32 && Promising(h.s, nb, idx) && h.s == old(h.s)
                && h.mem == old(h.mem)
      decreases NAV - idx
    {
      var startidx := idx;
      victim, idx := ScanBlock(h, nb, idx);
      if victim != 0 { return; }
      ClearBlock(h, startidx);
      k := k + 1;
      if k == 32 || Pow2(k) > h.binblocks {
        NothingAbove(h.binblocks, h.s, nb, k, idx);
        return;
      }
      k := NextBlock(h, nb, k);
      idx := 4 * k;
    }
  }
}
