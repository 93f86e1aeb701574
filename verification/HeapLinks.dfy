// The bins as they lie in memory: circular lists through the bin headers,
// linked in both directions.
module HeapLinks {
  import opened HeapWords
  import opened HeapShape
  import opened HeapTags

  /** Once around the bin with header `b`. */
  function Ring(b: int, l: seq<int>): seq<int> {
    [b] + l + [b]
  }

  ghost predicate Linked(mem: Memory, b: int, l: seq<int>) {
    forall j {:trigger Ring(b, l)[j]} :: 0 <= j <= |l| ==>
        Fd(mem, Ring(b, l)[j]) == Ring(b, l)[j + 1] && Bk(mem, Ring(b, l)[j + 1]) == Ring(b, l)[j]
  }

  ghost predicate Links(mem: Memory, s: Shape) {
    |s.bins| == NAV && forall i {:trigger Linked(mem, BinAt(i), s.bins[i])} :: 1 <= i < NAV ==>
        Linked(mem, BinAt(i), s.bins[i])
  }

  // ------------------------------------------------------------------ nodes

  predicate IsBin(x: int) {
    AV + 8 <= x < AV + 8 * NAV && (x - AV) % 8 == 0
  }

  ghost predicate IsNode(s: Shape, x: int) {
    IsBin(x) || x in s.home
  }

  lemma BinIsNode(i: int)
    requires 1 <= i < NAV
    ensures IsBin(BinAt(i))
  {
    Multiple(i);
  }

  lemma NodesApart(s: Shape, x: int, y: int)
    requires Tiled(s) && IsNode(s, x) && IsNode(s, y) && x != y
    ensures x + 8 <= y || y + 8 <= x
  {
    if IsBin(x) && IsBin(y) {
      if x < y { BinsApart(x, y); } else { BinsApart(y, x); }
    } else if IsBin(x) {
      assert ChunkOK(s, y);
    } else if IsBin(y) {
      assert ChunkOK(s, x);
    } else {
      Apart(s, x, y);
    }
  }

  lemma BinsApart(x: int, y: int)
    requires IsBin(x) && IsBin(y) && x < y
    ensures x + 8 <= y
  {
    SumAligned(y - AV, x - AV);
    var k := Eighths(y - x);
  }

  /** The members of a ring are nodes, and of no other ring. */
  lemma RingNode(s: Shape, i: int, j: int)
    requires Tiled(s) && Binned(s) && 1 <= i < NAV && 0 <= j <= |s.bins[i]| + 1
    ensures var x := Ring(BinAt(i), s.bins[i])[j];
            IsNode(s, x)
            && (if 1 <= j <= |s.bins[i]| then x in s.home && x in s.size && s.home[x] == i
              && !IsBin(x) else x == BinAt(i) && x !in s.home)
  {
    BinIsNode(i);
    if 1 <= j <= |s.bins[i]| {
      assert BinOK(s, i) && Member(s, i, s.bins[i][j - 1]);
      assert ChunkOK(s, s.bins[i][j - 1]);
    } else {
      BinNotHome(s, BinAt(i));
    }
  }

  lemma BinNotHome(s: Shape, x: int)
    requires Tiled(s) && IsBin(x)
    ensures x !in s.home && x !in s.size
  {
    assert x in s.size ==> ChunkOK(s, x);
  }

  lemma RingDistinct(s: Shape, i: int, j: int, k: int)
    requires Tiled(s) && Binned(s) && 1 <= i < NAV && 0 <= j < k <= |s.bins[i]| + 1 && !(j == 0 && k == |s.bins[i]| + 1)
    ensures Ring(BinAt(i), s.bins[i])[j] != Ring(BinAt(i), s.bins[i])[k]
  {
    RingNode(s, i, j);
    RingNode(s, i, k);
    assert BinOK(s, i);
  }

  lemma RingsDisjoint(s: Shape, i: int, j: int, i': int, j': int)
    requires Tiled(s) && Binned(s) && 1 <= i < NAV && 0 <= j <= |s.bins[i]| + 1
    requires 1 <= i' < NAV && 0 <= j' <= |s.bins[i']| + 1 && i != i'
    ensures Ring(BinAt(i), s.bins[i])[j] != Ring(BinAt(i'), s.bins[i'])[j']
  {
    RingNode(s, i, j);
    RingNode(s, i', j');
  }

  // ----------------------------------------------------------------- frames

  /** A word that a link may be in. */
  ghost predicate LinkWord(s: Shape, a: int) {
    IsNode(s, a - 8) || IsNode(s, a - 12)
  }

  ghost predicate OnlyLinks(mem: Memory, mem': Memory, s: Shape) {
    forall a {:trigger W(mem', a)} :: !LinkWord(s, a) ==> W(mem', a) == W(mem, a)
  }

  lemma TagNotLink(s: Shape, c: int)
    requires Tiled(s) && c in s.size
    ensures !LinkWord(s, c + 4) && !LinkWord(s, c)
  {
    assert ChunkOK(s, c);
    forall x | x in s.home && x != c ensures x + 12 < c || c + 8 < x + 12 { Apart(s, x, c); }
    assert forall x :: IsBin(x) ==> x + 16 <= c;
  }

  /** The room a block's owner may use: all but the head, and the size field
      of the chunk after it. */
  predicate InRoom(s: Shape, p: int, a: int) {
    p in s.size && p + 8 <= a < p + s.size[p] + 4
  }

  ghost predicate SameRoom(mem: Memory, mem': Memory, s: Shape, p: int) {
    forall a {:trigger W(mem', a)} :: InRoom(s, p, a) && a % 4 == 0 ==> W(mem', a) == W(mem, a)
  }

  lemma RoomNotLink(s: Shape, p: int, a: int)
    requires Tiled(s) && p in s.size && p !in s.home && InRoom(s, p, a) && a % 4 == 0
    ensures !LinkWord(s, a)
  {
    assert ChunkOK(s, p);
    forall x | x in s.home ensures x != a - 8 && x != a - 12 {
      assert ChunkOK(s, x) && Separate(s, x, p) && Separate(s, p, x);
    }
    assert forall x :: IsBin(x) ==> x + 16 <= p;
  }

  lemma OnlyLinksKeep(mem: Memory, mem': Memory, s: Shape)
    requires Tiled(s) && OnlyLinks(mem, mem', s)
    ensures SameTags(mem, mem', s)
    ensures forall p :: p in s.size && p !in s.home ==> SameRoom(mem, mem', s, p)
  {
    forall c | c in s.size
      ensures Head(mem', c) == Head(mem, c) && PrevSize(mem', c) == PrevSize(mem, c)
    {
      TagNotLink(s, c);
    }
    forall p | p in s.size && p !in s.home ensures SameRoom(mem, mem', s, p) {
      forall a | InRoom(s, p, a) && a % 4 == 0 ensures W(mem', a) == W(mem, a) { RoomNotLink(s, p, a); }
    }
  }

  /** Links are not affected by anything else that is written. */
  ghost predicate SameLinks(mem: Memory, mem': Memory, s: Shape) {
    forall x {:trigger IsNode(s, x)} :: IsNode(s, x) ==> Fd(mem', x) == Fd(mem, x) && Bk(mem', x) == Bk(mem, x)
  }

  lemma LinksSame(mem: Memory, mem': Memory, s: Shape)
    requires Tiled(s) && Binned(s) && Links(mem, s) && SameLinks(mem, mem', s)
    ensures Links(mem', s)
  {
    hide Fd, Bk;
    forall i | 1 <= i < NAV ensures Linked(mem', BinAt(i), s.bins[i]) {
      var n := Ring(BinAt(i), s.bins[i]);
      assert Linked(mem, BinAt(i), s.bins[i]);
      forall j | 0 <= j <= |s.bins[i]| ensures Fd(mem', n[j]) == n[j + 1] && Bk(mem', n[j + 1]) == n[j] {
        RingNode(s, i, j);
        RingNode(s, i, j + 1);
      }
    }
  }

  /** Writing the head of a chunk, or the size at the foot of one. */
  lemma TagWrite(mem: Memory, s: Shape, c: int, v: int)
    requires Tiled(s) && c in s.size
    ensures SameLinks(mem, mem[c + 4 := v], s) && SameLinks(mem, mem[c := v], s)
  {
    TagNotLink(s, c);
    forall x | IsNode(s, x) ensures Fd(mem[c + 4 := v], x) == Fd(mem, x) && Bk(mem[c + 4 := v], x) == Bk(mem, x)
                                    && Fd(mem[c := v], x) == Fd(mem, x) && Bk(mem[c := v], x) == Bk(mem, x) {
      assert (x + 8 == c || x + 12 == c ==> LinkWord(s, c))
             && (x + 8 == c + 4 || x + 12 == c + 4 ==> LinkWord(s, c + 4));
    }
  }

  // ------------------------------------------------------- unlink, link

  function Unlinked(mem: Memory, p: int): Memory {
    mem[Fd(mem, p) + 12 := Bk(mem, p)][Bk(mem, p) + 8 := Fd(mem, p)]
  }

  /** `P->bk = BK; P->fd = FD; FD->bk = BK->fd = P` */
  function LinkedIn(mem: Memory, p: int, bk: int, fd: int): Memory {
    mem[p + 12 := bk][p + 8 := fd][fd + 12 := p][bk + 8 := p]
  }

  /** What the two assignments of unlink change. */
  lemma UnlinkWrites(mem: Memory, s: Shape, fd: int, bk: int, y: int)
    requires Tiled(s) && IsNode(s, fd) && IsNode(s, bk) && IsNode(s, y)
    ensures var mem' := mem[fd + 12 := bk][bk + 8 := fd];
            Fd(mem', y) == (if y == bk then fd else Fd(mem, y)) && Bk(mem', y) == (if y == fd then bk else Bk(mem, y))
  {
    if y != bk { NodesApart(s, y, bk); }
    if y != fd { NodesApart(s, y, fd); }
  }

  /** One link of the ring, from its `j`-th node on, without the `k`-th member. */
  lemma UnlinkStep(mem: Memory, s: Shape, i: int, k: int, j: int)
    requires Tiled(s) && Binned(s) && Links(mem, s) && 1 <= i < NAV && 0 <= k < |s.bins[i]| && 0 <= j < |s.bins[i]|
    ensures var n := Ring(BinAt(i), s.bins[i]);
            var mem' := mem[n[k + 2] + 12 := n[k]][n[k] + 8 := n[k + 2]];
            var x, y := if j <= k then j else j + 1, if j < k then j + 1 else j + 2;
            Fd(mem', n[x]) == n[y] && Bk(mem', n[y]) == n[x]
  {
    hide Fd, Bk, IsNode, Binned, Tiled, IsBin;
    var n := Ring(BinAt(i), s.bins[i]);
    RingLink(mem, s, i, j);
    RingLink(mem, s, i, j + 1);
    RingNode(s, i, j);
    RingNode(s, i, j + 1);
    RingNode(s, i, j + 2);
    RingNode(s, i, k);
    RingNode(s, i, k + 2);
    UnlinkWrites(mem, s, n[k + 2], n[k], n[j]);
    UnlinkWrites(mem, s, n[k + 2], n[k], n[j + 1]);
    UnlinkWrites(mem, s, n[k + 2], n[k], n[j + 2]);
    if j < k {
      RingDistinct(s, i, j, k);
      RingDistinct(s, i, j + 1, k + 2);
    } else if j > k {
      RingDistinct(s, i, k, j + 1);
      RingDistinct(s, i, k + 2, j + 2);
    }
  }

  lemma RingLink(mem: Memory, s: Shape, i: int, j: int)
    requires Links(mem, s) && 1 <= i < NAV && 0 <= j <= |s.bins[i]|
    ensures var n := Ring(BinAt(i), s.bins[i]); Fd(mem, n[j]) == n[j + 1] && Bk(mem, n[j + 1]) == n[j]
  {
    assert Linked(mem, BinAt(i), s.bins[i]);
  }

  /** The neighbours of a chunk in its bin. */
  lemma Neighbours(mem: Memory, s: Shape, p: int)
    requires Tiled(s) && Binned(s) && Links(mem, s) && p in s.home
    ensures var i, k := s.home[p], Place(s, p);
            Fd(mem, p) == Ring(BinAt(i), s.bins[i])[k + 2] && Bk(mem, p) == Ring(BinAt(i), s.bins[i])[k]
  {
    var i, k := s.home[p], Place(s, p);
    var n := Ring(BinAt(i), s.bins[i]);
    assert Linked(mem, BinAt(i), s.bins[i]);
    assert n[k + 1] == p && Fd(mem, n[k + 1]) == n[k + 2] && Bk(mem, n[k + 1]) == n[k];
  }

  lemma RingRemove(b: int, l: seq<int>, k: int, j: int)
    requires 0 <= k < |l| && 0 <= j <= |l|
    ensures Ring(b, Remove(l, k))[j] == Ring(b, l)[if j <= k then j else j + 1]
  {
  }

  /** unlink on the bin the chunk is in. */
  lemma UnlinkRing(mem: Memory, s: Shape, p: int)
    requires Tiled(s) && Binned(s) && Links(mem, s) && p in s.home
    ensures Linked(Unlinked(mem, p), BinAt(s.home[p]), Remove(s.bins[s.home[p]], Place(s, p)))
  {
    var i, k := s.home[p], Place(s, p);
    Neighbours(mem, s, p);
    var m := Ring(BinAt(i), Remove(s.bins[i], k));
    var mem' := Unlinked(mem, p);
    forall j | 0 <= j <= |Remove(s.bins[i], k)| ensures Fd(mem', m[j]) == m[j + 1] && Bk(mem', m[j + 1]) == m[j] {
      RingRemove(BinAt(i), s.bins[i], k, j);
      RingRemove(BinAt(i), s.bins[i], k, j + 1);
      UnlinkStep(mem, s, i, k, j);
    }
    hide Ring, Place, Fd, Bk, Links;
  }

  /** The other rings. */
  lemma OtherRing(mem: Memory, s: Shape, i: int, j: int, k: int, bk: int, fd: int)
    requires Tiled(s) && Binned(s) && Links(mem, s) && 1 <= i < NAV && 1 <= j < NAV && i != j
    requires 0 <= k < |s.bins[i]| && fd == Ring(BinAt(i), s.bins[i])[k + 2] && bk == Ring(BinAt(i), s.bins[i])[k]
    ensures Linked(mem[fd + 12 := bk][bk + 8 := fd], BinAt(j), s.bins[j])
  {
    var n := Ring(BinAt(j), s.bins[j]);
    assert Linked(mem, BinAt(j), s.bins[j]);
    RingNode(s, i, k);
    RingNode(s, i, k + 2);
    forall h | 0 <= h <= |s.bins[j]|
      ensures Fd(mem[fd + 12 := bk][bk + 8 := fd], n[h]) == n[h + 1]
              && Bk(mem[fd + 12 := bk][bk + 8 := fd], n[h + 1]) == n[h]
    {
      RingNode(s, j, h);
      RingNode(s, j, h + 1);
      RingsDisjoint(s, i, k, j, h);
      RingsDisjoint(s, i, k + 2, j, h + 1);
      UnlinkWrites(mem, s, fd, bk, n[h]);
      UnlinkWrites(mem, s, fd, bk, n[h + 1]);
    }
    hide Ring, Fd, Bk, Links;
  }

  lemma UnlinkKeeps(mem: Memory, s: Shape, p: int)
    requires Tiled(s) && Binned(s) && Links(mem, s) && p in s.home
    ensures Links(Unlinked(mem, p), Taken(s, p)) && OnlyLinks(mem, Unlinked(mem, p), s)
    ensures OnlyLinks(mem, Unlinked(mem, p), Taken(s, p))
  {
    var i, k, t := s.home[p], Place(s, p), Taken(s, p);
    UnlinkRing(mem, s, p);
    Neighbours(mem, s, p);
    hide Ring;
    forall j | 1 <= j < NAV ensures Linked(Unlinked(mem, p), BinAt(j), t.bins[j]) {
      if i != j { OtherRing(mem, s, i, j, k, Bk(mem, p), Fd(mem, p)); }
    }
    RingNode(s, i, k);
    RingNode(s, i, k + 2);
    UnlinkNodes(s, p);
    NodeWrites(mem, s, Fd(mem, p), Bk(mem, p));
    NodeWrites(mem, t, Fd(mem, p), Bk(mem, p));
  }

  lemma UnlinkNodes(s: Shape, p: int)
    requires Tiled(s) && Binned(s) && p in s.home
    ensures var n := Ring(BinAt(s.home[p]), s.bins[s.home[p]]);
            IsNode(Taken(s, p), n[Place(s, p)]) && IsNode(Taken(s, p), n[Place(s, p) + 2])
  {
    var i, k := s.home[p], Place(s, p);
    RingNode(s, i, k);
    RingNode(s, i, k + 2);
    RingDistinct(s, i, k, k + 1);
    RingDistinct(s, i, k + 1, k + 2);
    assert Ring(BinAt(i), s.bins[i])[k + 1] == p;
  }

  lemma NodeWrites(mem: Memory, s: Shape, fd: int, bk: int)
    requires IsNode(s, fd) && IsNode(s, bk)
    ensures OnlyLinks(mem, mem[fd + 12 := bk][bk + 8 := fd], s)
  {
    assert LinkWord(s, fd + 12) && LinkWord(s, bk + 8);
  }

  // ------------------------------------------------------------------- link

  /** What the four assignments change; `p` is not a node yet. */
  lemma LinkWrites(mem: Memory, s: Shape, p: int, bk: int, fd: int, y: int)
    requires Tiled(s) && p in s.size && p !in s.home && IsNode(s, fd) && IsNode(s, bk) && (IsNode(s, y) || y == p)
    ensures var mem' := LinkedIn(mem, p, bk, fd);
            Fd(mem', y) == (if y == p then fd else if y == bk then p else Fd(mem, y))
            && Bk(mem', y) == (if y == p then bk else if y == fd then p else Bk(mem, y))
  {
    ChunkApart(s, p, fd);
    ChunkApart(s, p, bk);
    if y == p {
    } else {
      ChunkApart(s, p, y);
      if y != bk { NodesApart(s, y, bk); }
      if y != fd { NodesApart(s, y, fd); }
    }
  }

  lemma ChunkApart(s: Shape, p: int, x: int)
    requires Tiled(s) && p in s.size && p !in s.home && IsNode(s, x)
    ensures x + 8 <= p || p + 8 <= x
  {
    if IsBin(x) { assert ChunkOK(s, p); } else { Apart(s, x, p); }
  }

  lemma RingInsert(b: int, l: seq<int>, k: int, p: int, j: int)
    requires 0 <= k <= |l| && 0 <= j <= |l| + 2
    ensures Ring(b, Insert(l, k, p))[j] == if j <= k then Ring(b, l)[j] else if j == k + 1 then p else Ring(b, l)[j - 1]
  {
  }

  /** One link of the ring with `p` as its new `k`-th member. */
  lemma LinkStep(mem: Memory, s: Shape, p: int, i: int, k: int, j: int)
    requires Tiled(s) && Binned(s) && Links(mem, s) && p in s.size && p !in s.home
    requires 1 <= i < NAV && 0 <= k <= |s.bins[i]| && 0 <= j <= |s.bins[i]|
    ensures var n := Ring(BinAt(i), s.bins[i]);
            var mem' := LinkedIn(mem, p, n[k], n[k + 1]);
            if j != k then Fd(mem', n[j]) == n[j + 1] && Bk(mem', n[j + 1]) == n[j]
            else Fd(mem', n[k]) == p && Bk(mem', p) == n[k] && Fd(mem', p) == n[k + 1] && Bk(mem', n[k + 1]) == p
  {
    hide Fd, Bk, Binned, Tiled, IsBin, LinkedIn;
    var n := Ring(BinAt(i), s.bins[i]);
    RingLink(mem, s, i, j);
    RingNode(s, i, j);
    RingNode(s, i, j + 1);
    RingNode(s, i, k);
    RingNode(s, i, k + 1);
    LinkWrites(mem, s, p, n[k], n[k + 1], n[j]);
    LinkWrites(mem, s, p, n[k], n[k + 1], n[j + 1]);
    LinkWrites(mem, s, p, n[k], n[k + 1], p);
    if j < k {
      RingDistinct(s, i, j, k);
      RingDistinct(s, i, j + 1, k + 1);
    } else if j > k {
      RingDistinct(s, i, k, j);
      RingDistinct(s, i, k + 1, j + 1);
    }
    PNotNode(s, p);
  }

  lemma PNotNode(s: Shape, p: int)
    requires Tiled(s) && p in s.size && p !in s.home
    ensures !IsNode(s, p)
  {
    assert ChunkOK(s, p);
  }

  lemma LinkRing(mem: Memory, s: Shape, p: int, i: int, k: int)
    requires Tiled(s) && Binned(s) && Links(mem, s) && p in s.size && p !in s.home
    requires 1 <= i < NAV && 0 <= k <= |s.bins[i]|
    ensures var n := Ring(BinAt(i), s.bins[i]);
            Linked(LinkedIn(mem, p, n[k], n[k + 1]), BinAt(i), Insert(s.bins[i], k, p))
  {
    var n := Ring(BinAt(i), s.bins[i]);
    var mem' := LinkedIn(mem, p, n[k], n[k + 1]);
    var m := Ring(BinAt(i), Insert(s.bins[i], k, p));
    hide LinkedIn, Fd, Bk;
    forall j | 0 <= j <= |s.bins[i]| + 1 ensures Fd(mem', m[j]) == m[j + 1] && Bk(mem', m[j + 1]) == m[j] {
      RingInsert(BinAt(i), s.bins[i], k, p, j);
      RingInsert(BinAt(i), s.bins[i], k, p, j + 1);
      LinkStep(mem, s, p, i, k, if j <= k then j else j - 1);
    }
  }

  lemma OtherLinkRing(mem: Memory, s: Shape, p: int, i: int, k: int, j: int)
    requires Tiled(s) && Binned(s) && Links(mem, s) && p in s.size && p !in s.home
    requires 1 <= i < NAV && 0 <= k <= |s.bins[i]| && 1 <= j < NAV && i != j
    ensures var n := Ring(BinAt(i), s.bins[i]); Linked(LinkedIn(mem, p, n[k], n[k + 1]), BinAt(j), s.bins[j])
  {
    var n, m := Ring(BinAt(i), s.bins[i]), Ring(BinAt(j), s.bins[j]);
    var mem' := LinkedIn(mem, p, n[k], n[k + 1]);
    RingNode(s, i, k);
    RingNode(s, i, k + 1);
    PNotNode(s, p);
    hide LinkedIn, Fd, Bk;
    forall h | 0 <= h <= |s.bins[j]| ensures Fd(mem', m[h]) == m[h + 1] && Bk(mem', m[h + 1]) == m[h] {
      RingLink(mem, s, j, h);
      RingNode(s, j, h);
      RingNode(s, j, h + 1);
      RingsDisjoint(s, i, k, j, h);
      RingsDisjoint(s, i, k + 1, j, h + 1);
      LinkWrites(mem, s, p, n[k], n[k + 1], m[h]);
      LinkWrites(mem, s, p, n[k], n[k + 1], m[h + 1]);
    }
  }

  lemma LinkKeeps(mem: Memory, s: Shape, p: int, i: int, k: int)
    requires Tiled(s) && Binned(s) && Links(mem, s) && p in s.size && p !in s.home
    requires 1 <= i < NAV && 0 <= k <= |s.bins[i]|
    ensures var n := Ring(BinAt(i), s.bins[i]);
            Links(LinkedIn(mem, p, n[k], n[k + 1]), Given(s, p, i, k))
            && OnlyLinks(mem, LinkedIn(mem, p, n[k], n[k + 1]), Given(s, p, i, k))
  {
    var n, t := Ring(BinAt(i), s.bins[i]), Given(s, p, i, k);
    var mem' := LinkedIn(mem, p, n[k], n[k + 1]);
    LinkRing(mem, s, p, i, k);
    RingNode(s, i, k);
    RingNode(s, i, k + 1);
    forall j | 1 <= j < NAV ensures Linked(mem', BinAt(j), t.bins[j]) {
      if i != j { OtherLinkRing(mem, s, p, i, k, j); }
    }
    assert LinkWord(t, p + 8) && LinkWord(t, p + 12) && LinkWord(t, n[k] + 8) && LinkWord(t, n[k + 1] + 12);
  }

  // --------------------------------------------------------- last remainder

  /** `last_remainder->fd = last_remainder->bk = P; P->fd = P->bk = last_remainder` */
  function LastLinked(mem: Memory, p: int): Memory {
    mem[BinAt(1) + 12 := p][BinAt(1) + 8 := p][p + 12 := BinAt(1)][p + 8 := BinAt(1)]
  }

  function LastCleared(mem: Memory): Memory {
    mem[BinAt(1) + 12 := BinAt(1)][BinAt(1) + 8 := BinAt(1)]
  }

  lemma LastKeeps(mem: Memory, s: Shape, p: int)
    requires Tiled(s) && Binned(s) && Links(mem, s) && (Live(s, p) || (p in s.home && p in s.size && s.home[p] == 1))
    ensures Links(LastLinked(mem, p), Remaindered(s, p)) && OnlyLinks(mem, LastLinked(mem, p), Remaindered(s, p))
  {
    var t, mem' := Remaindered(s, p), LastLinked(mem, p);
    assert ChunkOK(s, p);
    BinIsNode(1);
    assert Ring(BinAt(1), [p]) == [BinAt(1), p, BinAt(1)];
    assert Linked(mem', BinAt(1), [p]);
    forall j | 1 <= j < NAV ensures Linked(mem', BinAt(j), t.bins[j]) {
      if j != 1 { LastOther(mem, s, p, j); }
    }
    assert LinkWord(t, p + 8) && LinkWord(t, p + 12) && LinkWord(t, BinAt(1) + 8) && LinkWord(t, BinAt(1) + 12);
  }

  lemma LastOther(mem: Memory, s: Shape, p: int, j: int)
    requires Tiled(s) && Binned(s) && Links(mem, s) && p in s.size && (p !in s.home || s.home[p] == 1) && 2 <= j < NAV
    ensures Linked(LastLinked(mem, p), BinAt(j), s.bins[j]) && Linked(LastCleared(mem), BinAt(j), s.bins[j])
  {
    var m := Ring(BinAt(j), s.bins[j]);
    forall h | 0 <= h <= |s.bins[j]| ensures Fd(LastLinked(mem, p), m[h]) == m[h + 1]
    && Bk(LastLinked(mem, p), m[h + 1]) == m[h]
                                             && Fd(LastCleared(mem), m[h]) == m[h + 1]
                                             && Bk(LastCleared(mem), m[h + 1]) == m[h] {
      RingLink(mem, s, j, h);
      LastApart(mem, s, p, j, h);
      LastApart(mem, s, p, j, h + 1);
    }
  }

  lemma LastApart(mem: Memory, s: Shape, p: int, j: int, h: int)
    requires Tiled(s) && Binned(s) && p in s.size && (p !in s.home || s.home[p] == 1) && 2 <= j < NAV
             && 0 <= h <= |s.bins[j]| + 1
    ensures var x := Ring(BinAt(j), s.bins[j])[h];
            Fd(LastLinked(mem, p), x) == Fd(mem, x) && Bk(LastLinked(mem, p), x) == Bk(mem, x)
            && Fd(LastCleared(mem), x) == Fd(mem, x) && Bk(LastCleared(mem), x) == Bk(mem, x)
  {
    var x := Ring(BinAt(j), s.bins[j])[h];
    RingNode(s, j, h);
    BinIsNode(1);
    RingNode(s, 1, 0);
    RingsDisjoint(s, 1, 0, j, h);
    NodesApart(s, x, BinAt(1));
    if p in s.home { NodesApart(s, x, p); } else { ChunkApart(s, p, x); }
  }

  lemma ClearKeeps(mem: Memory, s: Shape)
    requires Tiled(s) && Binned(s) && Links(mem, s)
    ensures Links(LastCleared(mem), Cleared(s)) && OnlyLinks(mem, LastCleared(mem), Cleared(s))
  {
    var t, mem' := Cleared(s), LastCleared(mem);
    BinIsNode(1);
    assert Ring(BinAt(1), []) == [BinAt(1), BinAt(1)];
    assert Linked(mem', BinAt(1), []);
    NotHomeTop(s);
    forall j | 1 <= j < NAV ensures Linked(mem', BinAt(j), t.bins[j]) {
      if j != 1 { LastOther(mem, s, s.top, j); }
    }
    assert LinkWord(t, BinAt(1) + 8) && LinkWord(t, BinAt(1) + 12);
  }

  lemma NotHomeTop(s: Shape)
    requires Tiled(s)
    ensures s.top in s.size && s.top !in s.home
  {
  }
}
