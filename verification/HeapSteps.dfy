// The macros of the allocator, and the steps by which its routines take free
// chunks out of their bins, join chunks and cut them.
module HeapSteps {
  import opened Words
  import opened HeapWords
  import opened HeapShape
  import opened HeapTags
  import opened HeapLinks
  import opened HeapState

  // -------------------------------------------------------------- bin links

  /** unlink */
  method Unlink(h: Heap, p: int)
    requires h.Base() && p in h.s.home
    modifies h`mem, h`s
    ensures h.Base() && h.s == Taken(old(h.s), p)
    ensures SameTags(old(h.mem), h.mem, h.s) && Keeps(old(h.mem), old(h.s), h.mem, h.s, NOGAP)
  {
    ghost var mem0, s0 := h.mem, h.s;
    UnlinkKeeps(h.mem, h.s, p);
    TakenOK(h.s, p);
    var bk, fd := Bk(h.mem, p), Fd(h.mem, p);
    h.mem := h.mem[fd + 12 := bk][bk + 8 := fd];
    h.s := Taken(h.s, p);
    OnlyLinksKeep(mem0, h.mem, h.s);
    KeepsLinks(mem0, s0, h.mem, h.s, NOGAP);
    TakenIndex(h.binblocks, s0, p);
  }

  lemma TakenIndex(binblocks: nat, s: Shape, p: int)
    requires Binned(s) && p in s.home && Indexed(binblocks, s.bins)
    ensures Indexed(binblocks, Taken(s, p).bins)
  {
    var t := Taken(s, p);
    forall i | 2 <= i < NAV && i < |t.bins| && t.bins[i] != [] ensures HasBit(binblocks, i / BINBLOCKWIDTH) {
      assert s.bins[i] != [];
    }
  }

  /** The bin's place for a chunk of this size: in front of the first one that
      is not larger. */
  method FindPlace(h: Heap, p: int, size: int, i: int) returns (fd: int, ghost k: nat)
    requires h.Base() && Tags(h.mem, h.s, p) && Live(h.s, p) && size == h.s.size[p] && 2 <= i < NAV
    ensures InOrder(h.s, i, k, size) && fd == Ring(BinAt(i), h.s.bins[i])[k + 1]
    ensures k == Ahead(h.s, i, size, 0)
  {
    assert |h.s.bins| == NAV;
    hide Fd, ChunkSize, IsNode, Taken, Tags, Links, Tiled, Binned, Indexed;
    ghost var mem, s := h.mem, h.s;
    RingLink(mem, s, i, 0);
    InOrderStart(s, i, size);
    fd, k := Fd(h.mem, BinAt(i)), 0;
    while fd != BinAt(i) && size < ChunkSize(h.mem, fd)
      invariant k <= |s.bins[i]| && fd == Ring(BinAt(i), s.bins[i])[k + 1] && Larger(s, i, k, size)
      invariant Ahead(s, i, size, 0) == Ahead(s, i, size, k)
      decreases |s.bins[i]| - k
    {
      AtMember(s, i, k);
      RingLink(mem, s, i, k + 1);
      MemberHead(mem, s, p, i, k);
      fd, k := Fd(h.mem, fd), k + 1;
    }
    AtMember(s, i, k);
    if k < |s.bins[i]| { MemberHead(mem, s, p, i, k); }
    PlaceInOrder(s, i, k, size);
  }

  /** The first `k` members of the bin are larger. */
  ghost predicate Larger(s: Shape, i: int, k: int, size: int) {
    0 <= i < |s.bins| && 0 <= k <= |s.bins[i]| && forall j :: 0 <= j < k ==>
        s.bins[i][j] in s.size && s.size[s.bins[i][j]] > size
  }

  lemma InOrderStart(s: Shape, i: int, size: int)
    requires 0 <= i < |s.bins|
    ensures Larger(s, i, 0, size)
  {
  }

  lemma AtMember(s: Shape, i: int, k: nat)
    requires Tiled(s) && Binned(s) && 1 <= i < NAV && k <= |s.bins[i]|
    ensures Ring(BinAt(i), s.bins[i])[k + 1] == BinAt(i) <==> k == |s.bins[i]|
  {
    RingNode(s, i, k + 1);
  }

  lemma PlaceInOrder(s: Shape, i: int, k: int, size: int)
    requires Binned(s) && 2 <= i < NAV && Larger(s, i, k, size)
    requires k < |s.bins[i]| ==> s.bins[i][k] in s.size && s.size[s.bins[i][k]] <= size
    ensures InOrder(s, i, k, size)
  {
    assert BinOK(s, i);
  }

  /** The head of a chunk in a bin can be trusted. */
  lemma MemberHead(mem: Memory, s: Shape, g: int, i: int, k: int)
    requires Tiled(s) && Binned(s) && Tags(mem, s, g) && g !in s.home && 1 <= i < NAV && 0 <= k < |s.bins[i]|
    ensures var c := s.bins[i][k];
            c in s.home && c in s.size && s.home[c] == i && ChunkSize(mem, c) == s.size[c]
            && c == Ring(BinAt(i), s.bins[i])[k + 1]
  {
    assert BinOK(s, i) && Member(s, i, s.bins[i][k]);
    HeadTells(mem, s, g, s.bins[i][k]);
  }

  /** frontlink: the chunk enters its bin, in size order and in front of others
      of the same size. */
  method FrontLink(h: Heap, p: int, size: int)
    requires h.Base() && Tags(h.mem, h.s, p) && Live(h.s, p) && size == h.s.size[p]
    modifies h`mem, h`s, h`binblocks
    ensures size >= MINSIZE && |old(h.s).bins| == NAV
    ensures h.Base() && h.s == Entered(old(h.s), p)
    ensures SameTags(old(h.mem), h.mem, h.s) && Keeps(old(h.mem), old(h.s), h.mem, h.s, p)
  {
    assert ChunkOK(h.s, p);
    BinIndexRange(size);
    var idx := BinIndex(size);
    var fd;
    ghost var k: nat;
    RingLink(h.mem, h.s, idx, 0);
    if size < MAX_SMALLBIN_SIZE {
      MarkBlock(h, idx);
      fd, k := Fd(h.mem, BinAt(idx)), 0;
      SmallOrder(h.s, p, idx);
    } else {
      fd := Fd(h.mem, BinAt(idx));
      if fd == BinAt(idx) {
        MarkBlock(h, idx);
        k := 0;
        EmptyRing(h.mem, h.s, idx);
      } else {
        RingNonEmpty(h.mem, h.s, idx);
        fd, k := FindPlace(h, p, size, idx);
      }
    }
    RingLink(h.mem, h.s, idx, k);
    LinkBetween(h, p, idx, k, Bk(h.mem, fd), fd);
  }

  lemma RingNonEmpty(mem: Memory, s: Shape, i: int)
    requires Links(mem, s) && 1 <= i < NAV
    ensures s.bins[i] == [] ==> Fd(mem, BinAt(i)) == BinAt(i)
  {
    RingLink(mem, s, i, 0);
  }

  lemma EmptyRing(mem: Memory, s: Shape, i: int)
    requires Tiled(s) && Binned(s) && Links(mem, s) && 1 <= i < NAV
    ensures Fd(mem, BinAt(i)) == BinAt(i) <==> s.bins[i] == []
    ensures Bk(mem, BinAt(i)) == BinAt(i) <==> s.bins[i] == []
    ensures s.bins[i] != [] ==> Bk(mem, BinAt(i)) == s.bins[i][|s.bins[i]| - 1]
  {
    RingLink(mem, s, i, 0);
    RingLink(mem, s, i, |s.bins[i]|);
    RingNode(s, i, 1);
    RingNode(s, i, |s.bins[i]|);
  }

  lemma SmallOrder(s: Shape, p: int, i: int)
    requires Tiled(s) && Binned(s) && p in s.size && s.size[p] < MAX_SMALLBIN_SIZE && s.size[p] >= MINSIZE
             && i == BinIndex(s.size[p]) && 2 <= i < 64
    ensures InOrder(s, i, 0, s.size[p])
  {
    assert BinOK(s, i) && ChunkOK(s, p);
    forall j | 0 <= j < |s.bins[i]| ensures s.bins[i][j] in s.size && s.size[s.bins[i][j]] == s.size[p] {
      var c := s.bins[i][j];
      assert Member(s, i, c) && ChunkOK(s, c);
      SmallBinsExact(s.size[c], s.size[p]);
    }
  }

  /** mark_binblock */
  method MarkBlock(h: Heap, idx: int)
    requires h.Base() && 2 <= idx < NAV
    modifies h`binblocks
    ensures h.Base() && HasBit(h.binblocks, idx / BINBLOCKWIDTH)
  {
    var b := idx / BINBLOCKWIDTH;
    SetBitBound(h.binblocks, b, 32);
    SetBitIs(h.binblocks, b, b);
    ghost var old0 := h.binblocks;
    h.binblocks := SetBit(h.binblocks, b);
    forall i | 2 <= i < NAV && i < |h.s.bins| && h.s.bins[i] != [] ensures HasBit(h.binblocks, i / BINBLOCKWIDTH) {
      assert HasBit(old0, i / BINBLOCKWIDTH);
      SetBitIs(old0, b, i / BINBLOCKWIDTH);
    }
  }

  method LinkBetween(h: Heap, p: int, i: int, ghost k: nat, bk: int, fd: int)
    requires h.Base() && Live(h.s, p) && h.s.size[p] >= 0 && 2 <= i < NAV && i == BinIndex(h.s.size[p])
             && InOrder(h.s, i, k, h.s.size[p])
    requires fd == Ring(BinAt(i), h.s.bins[i])[k + 1] && bk == Ring(BinAt(i), h.s.bins[i])[k]
    requires HasBit(h.binblocks, i / BINBLOCKWIDTH) || h.s.bins[i] != []
    modifies h`mem, h`s
    ensures h.Base() && h.s == Given(old(h.s), p, i, k)
    ensures SameTags(old(h.mem), h.mem, h.s) && Keeps(old(h.mem), old(h.s), h.mem, h.s, p)
  {
    ghost var mem0, s0 := h.mem, h.s;
    LinkKeeps(h.mem, h.s, p, i, k);
    GivenOK(h.s, p, i, k);
    h.mem := h.mem[p + 12 := bk][p + 8 := fd][fd + 12 := p][bk + 8 := p];
    h.s := Given(h.s, p, i, k);
    OnlyLinksKeep(mem0, h.mem, h.s);
    KeepsLinks(mem0, s0, h.mem, h.s, p);
    forall j | 2 <= j < NAV && j < |h.s.bins| && h.s.bins[j] != [] ensures HasBit(h.binblocks, j / BINBLOCKWIDTH) {
      if j != i { assert s0.bins[j] != []; }
    }
  }

  /** link_last_remainder */
  method LinkLast(h: Heap, p: int)
    requires h.Base() && (Live(h.s, p) || (p in h.s.home && h.s.home[p] == 1))
    modifies h`mem, h`s
    ensures h.Base() && h.s == Remaindered(old(h.s), p)
    ensures SameTags(old(h.mem), h.mem, h.s) && Keeps(old(h.mem), old(h.s), h.mem, h.s, p)
  {
    ghost var mem0, s0 := h.mem, h.s;
    LastKeeps(h.mem, h.s, p);
    RemainderedOK(h.s, p);
    h.mem := h.mem[BinAt(1) + 12 := p][BinAt(1) + 8 := p][p + 12 := BinAt(1)][p + 8 := BinAt(1)];
    h.s := Remaindered(h.s, p);
    OnlyLinksKeep(mem0, h.mem, h.s);
    KeepsLinks(mem0, s0, h.mem, h.s, p);
    SameIndex(h.binblocks, s0.bins, h.s.bins);
  }

  lemma SameIndex(binblocks: nat, bins: seq<seq<int>>, bins': seq<seq<int>>)
    requires Indexed(binblocks, bins) && |bins| == |bins'| && forall i :: 2 <= i < |bins| ==> bins'[i] == bins[i]
    ensures Indexed(binblocks, bins')
  {
  }

  /** clear_last_remainder */
  method ClearLast(h: Heap)
    requires h.Base()
    modifies h`mem, h`s
    ensures h.Base() && h.s == Cleared(old(h.s))
    ensures SameTags(old(h.mem), h.mem, h.s) && Keeps(old(h.mem), old(h.s), h.mem, h.s, NOGAP)
  {
    ghost var mem0, s0 := h.mem, h.s;
    ClearKeeps(h.mem, h.s);
    ClearedOK(h.s);
    h.mem := h.mem[BinAt(1) + 12 := BinAt(1)][BinAt(1) + 8 := BinAt(1)];
    h.s := Cleared(h.s);
    OnlyLinksKeep(mem0, h.mem, h.s);
    KeepsLinks(mem0, s0, h.mem, h.s, NOGAP);
    SameIndex(h.binblocks, s0.bins, h.s.bins);
  }
}
