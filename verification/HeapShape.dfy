// How the arena is cut into chunks and which bin holds which free chunk:
// the abstract state behind the allocator's headers and links.
module HeapShape {
  import opened HeapWords

  /** `size`: every chunk, `top` included; `home`: the bin of every free chunk
      but `top`; `bins`: the contents of the bins, from front to back. */
  datatype Shape = Shape(base: int, top: int, size: map<int, int>, home: map<int, int>, bins: seq<seq<int>>)

  ghost function Next(s: Shape, c: int): int
    requires c in s.size
  {
    c + s.size[c]
  }

  predicate Live(s: Shape, c: int) {
    c in s.size && c !in s.home && c != s.top
  }

  predicate ChunkOK(s: Shape, c: int)
    requires c in s.size
  {
    s.base <= c <= s.top && c % 8 == 0 && s.size[c] % 8 == 0 && s.size[c] >= MINSIZE
    && (c != s.top ==> c + s.size[c] in s.size)
  }

  predicate Separate(s: Shape, c: int, d: int)
    requires c in s.size && d in s.size
  {
    c < d ==> c + s.size[c] <= d
  }

  /** The chunks do not overlap and each begins where another ends. */
  ghost predicate Tiled(s: Shape) {
    s.base >= AV_END && s.base in s.size && s.top in s.size && s.top !in s.home && s.home.Keys <= s.size.Keys
    && (forall c {:trigger ChunkOK(s, c)} :: c in s.size ==> ChunkOK(s, c))
    && (forall c, d {:trigger Separate(s, c, d)} :: c in s.size && d in s.size ==> Separate(s, c, d))
  }

  predicate NoDup(l: seq<int>) {
    forall j, k :: 0 <= j < k < |l| ==> l[j] != l[k]
  }

  /** Largest first. */
  predicate Sorted(size: map<int, int>, l: seq<int>) {
    (forall j :: 0 <= j < |l| ==> l[j] in size)
    && forall j, k :: 0 <= j < k < |l| ==> size[l[j]] >= size[l[k]]
  }

  ghost predicate Member(s: Shape, i: int, c: int) {
    c in s.home && c in s.size && s.home[c] == i && (i >= 2 ==> s.size[c] >= 0 && BinIndex(s.size[c]) == i)
  }

  ghost predicate BinOK(s: Shape, i: int)
    requires 0 <= i < |s.bins|
  {
    NoDup(s.bins[i])
    && (forall j :: 0 <= j < |s.bins[i]| ==> Member(s, i, s.bins[i][j]))
    && (i >= 2 ==> Sorted(s.size, s.bins[i]))
  }

  ghost predicate Binned(s: Shape) {
    |s.bins| == NAV && s.bins[0] == [] && |s.bins[1]| <= 1
    && (forall i :: 0 <= i < NAV ==> BinOK(s, i))
    && (forall c :: c in s.home ==> 1 <= s.home[c] < NAV && c in s.bins[s.home[c]])
  }

  // ------------------------------------------------------- what tiling means

  predicate Covers(s: Shape, c: int, a: int) {
    c in s.size && c <= a < c + s.size[c]
  }

  /** Every byte of the arena belongs to exactly one chunk. */
  lemma TilesExactly(s: Shape, a: int)
    requires Tiled(s)
    ensures (exists c :: Covers(s, c, a)) <==> s.base <= a < Next(s, s.top)
    ensures forall c, d :: Covers(s, c, a) && Covers(s, d, a) ==> c == d
  {
    if s.base <= a < Next(s, s.top) {
      var c := Walk(s, s.base, a);
      assert Covers(s, c, a);
    }
    forall c | Covers(s, c, a) ensures s.base <= a < Next(s, s.top) {
      assert ChunkOK(s, c) && ChunkOK(s, s.top) && Separate(s, c, s.top);
    }
    forall c, d | Covers(s, c, a) && Covers(s, d, a) ensures c == d {
      assert Separate(s, c, d) && Separate(s, d, c);
    }
  }

  lemma {:induction false} Walk(s: Shape, c: int, a: int) returns (d: int)
    requires Tiled(s) && c in s.size && c <= a < Next(s, s.top)
    ensures Covers(s, d, a)
    decreases a - c
  {
    assert ChunkOK(s, c);
    if a < Next(s, c) { d := c; } else { d := Walk(s, Next(s, c), a); }
  }

  /** Two chunks are at least a header apart. */
  lemma Apart(s: Shape, c: int, d: int)
    requires Tiled(s) && c in s.size && d in s.size && c != d
    ensures c + MINSIZE <= d || d + MINSIZE <= c
  {
    assert ChunkOK(s, c) && ChunkOK(s, d) && Separate(s, c, d) && Separate(s, d, c);
  }

  // ------------------------------------------------------------ transitions

  function Remove(l: seq<int>, k: int): seq<int>
    requires 0 <= k < |l|
  {
    l[..k] + l[k + 1..]
  }

  function Insert(l: seq<int>, k: int, p: int): seq<int>
    requires 0 <= k <= |l|
  {
    l[..k] + [p] + l[k..]
  }

  ghost function Place(s: Shape, p: int): (k: int)
    requires Binned(s) && p in s.home
    ensures 0 <= k < |s.bins[s.home[p]]| && s.bins[s.home[p]][k] == p
  {
    var k :| 0 <= k < |s.bins[s.home[p]]| && s.bins[s.home[p]][k] == p; k
  }

  /** Free chunk `p` leaves its bin. */
  ghost function Taken(s: Shape, p: int): Shape
    requires Binned(s) && p in s.home
  {
    var i := s.home[p];
    s.(home := s.home - {p}, bins := s.bins[i := Remove(s.bins[i], Place(s, p))])
  }

  /** Chunk `p` enters bin `i` as its `k`-th member. */
  ghost function Given(s: Shape, p: int, i: int, k: int): Shape
    requires 0 <= i < |s.bins| && 0 <= k <= |s.bins[i]|
  {
    s.(home := s.home[p := i], bins := s.bins[i := Insert(s.bins[i], k, p)])
  }

  /** The place in bin `i` for a chunk of this size, not before the `k`-th: in
      front of the first member that is not larger. */
  ghost function Ahead(s: Shape, i: int, size: int, k: nat): (r: nat)
    requires 0 <= i < |s.bins| && k <= |s.bins[i]|
    ensures k <= r <= |s.bins[i]|
    ensures forall j :: k <= j < r ==> s.bins[i][j] in s.size && s.size[s.bins[i][j]] > size
    ensures r < |s.bins[i]| ==> s.bins[i][r] in s.size ==> s.size[s.bins[i][r]] <= size
    decreases |s.bins[i]| - k
  {
    if k < |s.bins[i]| && s.bins[i][k] in s.size && s.size[s.bins[i][k]] > size then Ahead(s, i, size, k + 1) else k
  }

  /** Chunk `p` enters the bin of its size, in front of others of the same size. */
  ghost function Entered(s: Shape, p: int): Shape
    requires p in s.size && s.size[p] >= MINSIZE && |s.bins| == NAV
  {
    BinIndexRange(s.size[p]);
    var i := BinIndex(s.size[p]);
    Given(s, p, i, Ahead(s, i, s.size[p], 0))
  }

  /** `p` becomes the last remainder, the only one. */
  ghost function Remaindered(s: Shape, p: int): Shape
    requires |s.bins| == NAV
  {
    s.(home := map c | c in s.home.Keys + {p} && (c == p || s.home[c] != 1) :: if c == p then 1 else s.home[c],
       bins := s.bins[1 := [p]])
  }

  /** The last-remainder bin is emptied. */
  ghost function Cleared(s: Shape): Shape
    requires |s.bins| == NAV
  {
    s.(home := map c | c in s.home.Keys && s.home[c] != 1 :: s.home[c], bins := s.bins[1 := []])
  }

  /** Chunk `c` takes in the one after it, which is in no bin. */
  ghost function Joined(s: Shape, c: int): Shape
    requires c in s.size && Next(s, c) in s.size
  {
    var n := Next(s, c);
    s.(size := (s.size - {n})[c := s.size[c] + s.size[n]], top := if n == s.top then c else s.top)
  }

  /** Chunk `c` is cut at `nb`; of `top` the upper part remains. */
  ghost function Cut(s: Shape, c: int, nb: int): Shape
    requires c in s.size
  {
    s.(size := s.size[c := nb][c + nb := s.size[c] - nb], top := if c == s.top then c + nb else s.top)
  }

  /** `top` gets a new size. */
  ghost function Resized(s: Shape, size: int): Shape {
    s.(size := s.size[s.top := size])
  }

  // --------------------------------------------- transitions keep the shape

  /** Leaving a list. */
  lemma RemoveList(size: map<int, int>, l: seq<int>, k: int)
    requires 0 <= k < |l| && NoDup(l)
    ensures NoDup(Remove(l, k)) && (Sorted(size, l) ==> Sorted(size, Remove(l, k)))
    ensures forall c :: c in Remove(l, k) <==> c in l && c != l[k]
  {
    var m := Remove(l, k);
    assert forall j :: 0 <= j < |m| ==> m[j] == if j < k then l[j] else l[j + 1];
    hide Remove;
    forall c ensures c in m <==> c in l && c != l[k] {
      if c in l && c != l[k] {
        var j :| 0 <= j < |l| && l[j] == c;
        assert m[if j < k then j else j - 1] == c;
      }
    }
  }

  /** Entering a list. */
  lemma InsertList(size: map<int, int>, l: seq<int>, k: int, p: int)
    requires 0 <= k <= |l| && NoDup(l) && p !in l && p in size && Sorted(size, l)
    requires forall j :: 0 <= j < k ==> size[l[j]] >= size[p]
    requires forall j :: k <= j < |l| ==> size[l[j]] <= size[p]
    ensures NoDup(Insert(l, k, p)) && Sorted(size, Insert(l, k, p))
    ensures forall c :: c in Insert(l, k, p) <==> c in l || c == p
  {
    var m := Insert(l, k, p);
    assert forall j :: 0 <= j < |m| ==> m[j] == if j < k then l[j] else if j == k then p else l[j - 1];
    hide Insert;
    forall c ensures c in m <==> c in l || c == p {
      if c in l {
        var j :| 0 <= j < |l| && l[j] == c;
        assert m[if j < k then j else j + 1] == c;
      }
      assert m[k] == p;
    }
  }

  lemma MembersOf(s: Shape, i: int)
    requires 0 <= i < |s.bins| && BinOK(s, i)
    ensures forall c :: c in s.bins[i] ==> Member(s, i, c)
  {
  }

  lemma RemoveBin(s: Shape, p: int)
    requires Tiled(s) && Binned(s) && p in s.home
    ensures BinOK(Taken(s, p), s.home[p])
    ensures forall c :: c in s.bins[s.home[p]] && c != p ==> c in Remove(s.bins[s.home[p]], Place(s, p))
  {
    var i, k := s.home[p], Place(s, p);
    var l, t := s.bins[i], Taken(s, p);
    assert BinOK(s, i);
    RemoveList(s.size, l, k);
    MembersOf(s, i);
    hide Remove, Place, NoDup, Sorted;
    forall c | c in t.bins[i] ensures Member(t, i, c) { assert Member(s, i, c); }
  }

  lemma TakenOK(s: Shape, p: int)
    requires Tiled(s) && Binned(s) && p in s.home
    ensures Tiled(Taken(s, p)) && Binned(Taken(s, p))
  {
    var t := Taken(s, p);
    RemoveBin(s, p);
    hide Place, Remove;
    forall i | 0 <= i < NAV ensures BinOK(t, i) {
      if i != s.home[p] { OtherBin(s, t, i, p); }
    }
    TiledHome(s, t);
  }

  /** Tiling does not care for the bins. */
  lemma TiledHome(s: Shape, t: Shape)
    requires Tiled(s) && t.size == s.size && t.top == s.top && t.base == s.base
    requires t.top !in t.home && t.home.Keys <= t.size.Keys
    ensures Tiled(t)
  {
    forall c | c in t.size ensures ChunkOK(t, c) { assert ChunkOK(s, c); }
    forall c, d | c in t.size && d in t.size ensures Separate(t, c, d) { assert Separate(s, c, d); }
  }

  /** A bin whose members stay where they are. */
  lemma OtherBin(s: Shape, t: Shape, i: int, p: int)
    requires |s.bins| == |t.bins| && 0 <= i < |s.bins| && BinOK(s, i) && t.bins[i] == s.bins[i]
    requires p !in s.bins[i]
    requires forall c :: c in s.home && c != p && s.home[c] == i ==> c in t.home && t.home[c] == i
    requires forall c :: c in s.size && c in s.home && c != p ==> c in t.size && t.size[c] == s.size[c]
    ensures BinOK(t, i)
  {
    var l := s.bins[i];
    forall j | 0 <= j < |l| ensures Member(t, i, l[j]) && t.size[l[j]] == s.size[l[j]] {
      assert Member(s, i, l[j]);
    }
  }

  /** Place `k` of bin `i` keeps the bin in order. */
  ghost predicate InOrder(s: Shape, i: int, k: int, size: int) {
    0 <= i < |s.bins| && 0 <= k <= |s.bins[i]|
    && (forall j :: 0 <= j < |s.bins[i]| ==> s.bins[i][j] in s.size)
    && (forall j :: 0 <= j < k ==> s.size[s.bins[i][j]] >= size)
    && (forall j :: k <= j < |s.bins[i]| ==> s.size[s.bins[i][j]] <= size)
  }

  lemma GivenOK(s: Shape, p: int, i: int, k: int)
    requires Tiled(s) && Binned(s) && Live(s, p)
    requires s.size[p] >= 0 && 2 <= i < NAV && i == BinIndex(s.size[p]) && InOrder(s, i, k, s.size[p])
    ensures Tiled(Given(s, p, i, k)) && Binned(Given(s, p, i, k))
  {
    var t := Given(s, p, i, k);
    GivenBin(s, p, i, k);
    hide Insert;
    forall j | 0 <= j < NAV ensures BinOK(t, j) {
      if i != j {
        NotListed(s, p, j);
        OtherBin(s, t, j, p);
      }
    }
    TiledHome(s, t);
  }

  lemma NotListed(s: Shape, p: int, i: int)
    requires Binned(s) && 0 <= i < NAV && p !in s.home
    ensures p !in s.bins[i]
  {
    assert BinOK(s, i);
    forall j | 0 <= j < |s.bins[i]| ensures s.bins[i][j] != p { assert Member(s, i, s.bins[i][j]); }
  }

  lemma GivenBin(s: Shape, p: int, i: int, k: int)
    requires Tiled(s) && Binned(s) && Live(s, p)
    requires s.size[p] >= 0 && 2 <= i < NAV && i == BinIndex(s.size[p]) && InOrder(s, i, k, s.size[p])
    ensures BinOK(Given(s, p, i, k), i)
    ensures p in Insert(s.bins[i], k, p) && forall c :: c in s.bins[i] ==> c in Insert(s.bins[i], k, p)
  {
    var l, t := s.bins[i], Given(s, p, i, k);
    assert BinOK(s, i);
    NotListed(s, p, i);
    InsertList(s.size, l, k, p);
    MembersOf(s, i);
    hide Insert, NoDup, Sorted;
    forall c | c in t.bins[i] ensures Member(t, i, c) { if c != p { assert Member(s, i, c); } }
  }

  lemma RemainderedOK(s: Shape, p: int)
    requires Tiled(s) && Binned(s) && (Live(s, p) || (p in s.home && s.home[p] == 1))
    ensures Tiled(Remaindered(s, p)) && Binned(Remaindered(s, p))
  {
    var t := Remaindered(s, p);
    forall i | 0 <= i < NAV ensures BinOK(t, i) {
      if i != 1 {
        NotInOther(s, p, i);
        OtherBin(s, t, i, p);
      }
    }
    TiledHome(s, t);
  }

  lemma NotInOther(s: Shape, p: int, i: int)
    requires Binned(s) && 0 <= i < NAV && i != 1 && (p !in s.home || s.home[p] == 1)
    ensures p !in s.bins[i]
  {
    assert BinOK(s, i);
    forall j | 0 <= j < |s.bins[i]| ensures s.bins[i][j] != p { assert Member(s, i, s.bins[i][j]); }
  }

  lemma ClearedOK(s: Shape)
    requires Tiled(s) && Binned(s)
    ensures Tiled(Cleared(s)) && Binned(Cleared(s))
  {
    var t := Cleared(s);
    forall i | 0 <= i < NAV ensures BinOK(t, i) {
      if i != 1 { assert BinOK(s, i); OtherBin(s, t, i, s.top); }
    }
    TiledHome(s, t);
  }

  /** The bins do not care for the sizes of the last remainder and of chunks
      that are in no bin. */
  lemma BinnedSizes(s: Shape, t: Shape)
    requires Binned(s) && t.home == s.home && t.bins == s.bins
    requires forall c :: c in s.home && c in s.size ==> c in t.size && (s.home[c] != 1 ==> t.size[c] == s.size[c])
    ensures Binned(t)
  {
    forall i | 0 <= i < NAV ensures BinOK(t, i) {
      assert BinOK(s, i);
      forall j | 0 <= j < |s.bins[i]| ensures Member(t, i, s.bins[i][j]) { assert Member(s, i, s.bins[i][j]); }
      if i >= 2 {
        forall j | 0 <= j < |s.bins[i]|
          ensures t.size[s.bins[i][j]] == s.size[s.bins[i][j]]
        {
          assert Member(s, i, s.bins[i][j]);
        }
      }
    }
  }

  lemma JoinedOK(s: Shape, c: int)
    requires Tiled(s) && Binned(s) && c in s.size && c != s.top && Next(s, c) !in s.home
    requires c in s.home ==> s.home[c] == 1 && Next(s, c) != s.top
    ensures Next(s, c) in s.size
    ensures Tiled(Joined(s, c)) && Binned(Joined(s, c))
  {
    assert ChunkOK(s, c);
    var t := Joined(s, c);
    forall d | d in t.size ensures ChunkOK(t, d) { JoinedChunk(s, c, d); }
    forall d, e | d in t.size && e in t.size ensures Separate(t, d, e) { JoinedSeparate(s, c, d, e); }
    BinnedSizes(s, t);
  }

  lemma JoinedChunk(s: Shape, c: int, d: int)
    requires Tiled(s) && c in s.size && c != s.top && Next(s, c) in s.size && d in Joined(s, c).size
    ensures ChunkOK(Joined(s, c), d)
  {
    var n := Next(s, c);
    assert ChunkOK(s, c) && ChunkOK(s, d) && ChunkOK(s, n) && Separate(s, c, d) && Separate(s, d, c);
    if n == s.top { Apart(s, d, n); }
  }

  lemma JoinedSeparate(s: Shape, c: int, d: int, e: int)
    requires Tiled(s) && c in s.size && Next(s, c) in s.size && d in Joined(s, c).size && e in Joined(s, c).size
    ensures Separate(Joined(s, c), d, e)
  {
    var n := Next(s, c);
    assert ChunkOK(s, c) && ChunkOK(s, n) && Separate(s, d, e) && Separate(s, c, e) && Separate(s, n, e);
  }

  /** No chunk begins inside another. */
  lemma Inside(s: Shape, c: int, a: int)
    requires Tiled(s) && c in s.size && c < a < Next(s, c)
    ensures a !in s.size
  {
    assert a in s.size ==> Separate(s, c, a);
  }

  lemma CutOK(s: Shape, c: int, nb: int)
    requires Tiled(s) && Binned(s) && c in s.size && (c !in s.home || s.home[c] == 1)
    requires nb % 8 == 0 && MINSIZE <= nb <= s.size[c] - MINSIZE
    ensures c + nb !in s.size
    ensures Tiled(Cut(s, c, nb)) && Binned(Cut(s, c, nb))
  {
    CutTiled(s, c, nb);
    BinnedSizes(s, Cut(s, c, nb));
  }

  lemma CutTiled(s: Shape, c: int, nb: int)
    requires Tiled(s) && c in s.size && nb % 8 == 0 && MINSIZE <= nb <= s.size[c] - MINSIZE
    ensures c + nb !in s.size && Tiled(Cut(s, c, nb))
  {
    hide ChunkOK, Separate;
    var t := Cut(s, c, nb);
    Inside(s, c, c + nb);
    forall d | d in t.size ensures ChunkOK(t, d) { CutChunk(s, c, nb, d); }
    forall d, e | d in t.size && e in t.size ensures Separate(t, d, e) { CutSeparate(s, c, nb, d, e); }
  }

  lemma CutChunk(s: Shape, c: int, nb: int, d: int)
    requires Tiled(s) && c in s.size && nb % 8 == 0 && MINSIZE <= nb <= s.size[c] - MINSIZE && d in Cut(s, c, nb).size
    ensures ChunkOK(Cut(s, c, nb), d)
  {
    assert ChunkOK(s, c);
    if d in s.size { assert ChunkOK(s, d); }
    if c != s.top { assert ChunkOK(s, Next(s, c)); }
    if c == s.top && d in s.size { assert Separate(s, c, d); }
    SumAligned(s.size[c], nb);
    SumAligned(c, nb);
  }

  lemma CutSeparate(s: Shape, c: int, nb: int, d: int, e: int)
    requires Tiled(s) && c in s.size && MINSIZE <= nb <= s.size[c] - MINSIZE
    requires d in Cut(s, c, nb).size && e in Cut(s, c, nb).size
    ensures Separate(Cut(s, c, nb), d, e)
  {
    if d in s.size { assert Separate(s, d, c) && Separate(s, c, d) && ChunkOK(s, d); }
    if e in s.size { assert Separate(s, e, c) && Separate(s, c, e) && ChunkOK(s, e); }
    if d in s.size && e in s.size { assert Separate(s, d, e); }
  }

  lemma ResizedOK(s: Shape, size: int)
    requires Tiled(s) && Binned(s) && size % 8 == 0 && size >= MINSIZE
    ensures Tiled(Resized(s, size)) && Binned(Resized(s, size))
  {
    var t := Resized(s, size);
    forall d | d in t.size ensures ChunkOK(t, d) { assert ChunkOK(s, d); }
    forall d, e | d in t.size && e in t.size ensures Separate(t, d, e) { assert Separate(s, d, e) && ChunkOK(s, e); }
    BinnedSizes(s, t);
  }
}
