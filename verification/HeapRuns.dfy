// What the allocator means to its callers: blocks that hold what was last
// stored in them, over any sequence of calls and stores.
module HeapRuns {
  import opened Words
  import opened HeapWords
  import opened HeapShape
  import opened HeapTags
  import opened HeapLinks
  import opened HeapState
  import opened HeapSteps
  import opened HeapFree
  import opened HeapMalloc
  import opened HeapRealloc
  import opened HeapAlign

  // ---------------------------------------------------------- single blocks

  /** A block serves a request: the pointer is aligned, and the bytes from it up
      to the end of its room suffice, for exactly the requests whose padding does
      not overflow. */
  lemma BlockServes(s: Shape, c: int, bytes: nat)
    requires Tiled(s) && Live(s, c) && bytes < LONG_LIMIT
             && PadRequest(bytes) <= s.size[c] < PadRequest(bytes) + MINSIZE
    ensures (c + 8) % 8 == 0
    ensures bytes <= 0x7FFF_FFF4 ==> s.size[c] - 4 >= bytes
    ensures bytes > 0x7FFF_FFF4 ==> s.size[c] - 4 < bytes
  {
    PadSuits(bytes);
    assert ChunkOK(s, c);
    SumAligned(c, 8);
  }

  /** Two blocks share no byte, and no block reaches out of the arena. */
  lemma BlocksDisjoint(s: Shape, p: int, q: int, a: int)
    requires Tiled(s) && Live(s, p) && InRoom(s, p, a)
    ensures Live(s, q) && InRoom(s, q, a) ==> q == p
    ensures s.base + 8 <= a < Next(s, s.top)
  {
    assert ChunkOK(s, p);
    assert ChunkOK(s, Next(s, p)) && ChunkOK(s, s.top);
    assert Separate(s, p, s.top);
    if Live(s, q) { assert ChunkOK(s, q) && Separate(s, p, q) && Separate(s, q, p); }
  }

  /** The owner of a block stores a word in it. */
  method Store(h: Heap, p: int, a: int, v: int)
    requires h.Valid() && Live(h.s, p) && 8 <= a < h.s.size[p] + 4 && a % 4 == 0
    modifies h`mem
    ensures h.Valid() && h.mem == old(h.mem)[p + a := v] && Keeps(old(h.mem), h.s, h.mem, h.s, p)
  {
    hide Tags, Links, Binned, Indexed, Keeps;
    StoreKeeps(h.mem, h.s, p, a, v);
    h.mem := h.mem[p + a := v];
  }

  lemma StoreKeeps(mem: Memory, s: Shape, p: int, a: int, v: int)
    requires Tiled(s) && Binned(s) && Links(mem, s) && Tags(mem, s, NOGAP) && Live(s, p) && 8 <= a < s.size[p] + 4
             && a % 4 == 0
    ensures Links(mem[p + a := v], s) && Tags(mem[p + a := v], s, NOGAP) && Keeps(mem, s, mem[p + a := v], s, p)
  {
    assert ChunkOK(s, p);
    if a < s.size[p] {
      InsideKeeps(mem, mem[p + a := v], s, NOGAP, p);
    } else {
      LastWord(s.size[p], a);
      StoreFoot(mem, s, p, v);
    }
  }

  lemma LastWord(size: int, a: int)
    requires size % 8 == 0 && a % 4 == 0 && size <= a < size + 4
    ensures a == size
  {
    var k := Eighths(size);
  }

  /** The last word of a block is where the size of a free chunk would be. */
  lemma StoreFoot(mem: Memory, s: Shape, p: int, v: int)
    requires Tiled(s) && Binned(s) && Links(mem, s) && Tags(mem, s, NOGAP) && Live(s, p)
    ensures var mem' := mem[Next(s, p) := v]; Links(mem', s) && Tags(mem', s, NOGAP) && Keeps(mem, s, mem', s, p)
  {
    assert ChunkOK(s, p);
    var n := Next(s, p);
    OpenGap(mem, s, p);
    FootGap(mem, s, p, v);
    HeadTells(mem, s, NOGAP, p);
    NextTells(mem, s, p);
    NoChunk(s);
    assert ChunkOK(s, n);
    CloseLive(mem[n := v], s, p);
    TagKeepsBase(mem, s, n, v);
    KeepsTag(mem, s, p, v, p);
  }

  // ------------------------------------------------------ the callers' view

  /** What the callers know of a block: the padded size they asked for, and the
      words that have been stored in it. */
  datatype Block = Block(nb: int, words: map<int, int>)

  type View = map<int, Block>

  ghost predicate Reads(mem: Memory, s: Shape, p: int, words: map<int, int>) {
    p in s.size && forall a {:trigger At(mem, p, a)} {:trigger a in words} :: a in words ==>
        8 <= a < s.size[p] + 4 && a % 4 == 0 && At(mem, p, a) == words[a]
  }

  /** The block is as large as asked, and not larger than need be. */
  predicate Sized(s: Shape, p: int, nb: int) {
    p in s.size && nb <= s.size[p] < nb + MINSIZE
  }

  /** The blocks in use are those of the view. */
  ghost predicate InUse(s: Shape, view: View) {
    (forall p {:trigger Live(s, p)} {:trigger p in view} :: Live(s, p) <==> p in view)
    && forall p {:trigger Sized(s, p, view[p].nb)} :: p in view ==> Sized(s, p, view[p].nb)
  }

  /** The blocks in use are those of the view, and hold what it says. */
  ghost predicate Agrees(mem: Memory, s: Shape, view: View) {
    InUse(s, view) && forall p {:trigger Reads(mem, s, p, view[p].words)} :: p in view ==>
        Reads(mem, s, p, view[p].words)
  }

  lemma ReadsKept(mem: Memory, s: Shape, mem': Memory, s': Shape, p: int, words: map<int, int>)
    requires Tiled(s) && Live(s, p) && Live(s', p) && s'.size[p] == s.size[p] && SameRoom(mem, mem', s, p)
             && Reads(mem, s, p, words)
    ensures Reads(mem', s', p, words)
  {
    RoomMoved(mem, mem', s, p, s.size[p]);
  }

  lemma OthersAgree(mem: Memory, s: Shape, mem': Memory, s': Shape, view: View, p: int)
    requires Tiled(s) && Agrees(mem, s, view) && Keeps(mem, s, mem', s', p)
    ensures forall q :: q in view && q != p ==> Reads(mem', s', q, view[q].words) && Sized(s', q, view[q].nb)
  {
    forall q | q in view && q != p ensures Reads(mem', s', q, view[q].words) && Sized(s', q, view[q].nb) {
      assert Live(s, q) && Reads(mem, s, q, view[q].words) && Sized(s, q, view[q].nb);
      ReadsKept(mem, s, mem', s', q, view[q].words);
    }
  }

  lemma AllocatedView(mem: Memory, s: Shape, mem': Memory, s': Shape, view: View, c: int, nb: int)
    requires Tiled(s) && Agrees(mem, s, view) && Allocated(mem, s, mem', s', c, nb)
    ensures c !in view && Agrees(mem', s', view[c := Block(nb, map[])])
  {
    NoChunk(s);
    OthersAgree(mem, s, mem', s', view, NOGAP);
    var view' := view[c := Block(nb, map[])];
    forall p ensures Live(s', p) <==> p in view' { assert Live(s', p) <==> Live(s, p) || p == c; }
    forall p | p in view' ensures Reads(mem', s', p, view'[p].words) && Sized(s', p, view'[p].nb) {
      if p != c { assert p in view && p != NOGAP; }
    }
  }

  lemma ReleasedView(mem: Memory, s: Shape, mem': Memory, s': Shape, view: View, p: int)
    requires Tiled(s) && Agrees(mem, s, view) && Released(mem, s, mem', s', p)
    ensures Agrees(mem', s', view - {p})
  {
    NoChunk(s);
    OthersAgree(mem, s, mem', s', view, p);
    var view' := view - {p};
    forall q ensures Live(s', q) <==> q in view' { assert Live(s', q) <==> Live(s, q) && q != p; }
    forall q | q in view' ensures Reads(mem', s', q, view'[q].words) && Sized(s', q, view'[q].nb) { }
  }

  /** What is left of a block's words after moving to `nb` bytes. */
  function Prefix(words: map<int, int>, nb: int): map<int, int> {
    map a | a in words && a < nb + 4 :: words[a]
  }

  lemma ReallocatedView(mem: Memory, s: Shape, mem': Memory, s': Shape, view: View, p: int, q: int, nb: int)
    requires Tiled(s) && Agrees(mem, s, view) && Reallocated(mem, s, mem', s', p, q, nb)
    ensures p in view && Agrees(mem', s', (view - {p})[q := Block(nb, Prefix(view[p].words, nb))])
  {
    assert Live(s, p) && Reads(mem, s, p, view[p].words);
    NoChunk(s);
    OthersAgree(mem, s, mem', s', view, p);
    var view' := (view - {p})[q := Block(nb, Prefix(view[p].words, nb))];
    forall x ensures Live(s', x) <==> x in view' { assert Live(s', x) <==> (Live(s, x) && x != p) || x == q; }
    forall x | x in view' ensures Reads(mem', s', x, view'[x].words) && Sized(s', x, view'[x].nb) {
      if x == q {
        forall a | a in view'[q].words ensures 8 <= a < s'.size[q] + 4 && a % 4 == 0
        && At(mem', q, a) == view'[q].words[a] {
          assert At(mem, p, a) == view[p].words[a];
        }
      }
    }
  }

  lemma StoredView(mem: Memory, s: Shape, view: View, p: int, a: int, v: int)
    requires Tiled(s) && Agrees(mem, s, view) && Live(s, p) && 8 <= a < s.size[p] + 4 && a % 4 == 0
             && Keeps(mem, s, mem[p + a := v], s, p)
    ensures p in view && Agrees(mem[p + a := v], s, view[p := Block(view[p].nb, view[p].words[a := v])])
  {
    assert Reads(mem, s, p, view[p].words) && Sized(s, p, view[p].nb);
    OthersAgree(mem, s, mem[p + a := v], s, view, p);
    var mem', view' := mem[p + a := v], view[p := Block(view[p].nb, view[p].words[a := v])];
    forall b | b in view'[p].words ensures 8 <= b < s.size[p] + 4 && b % 4 == 0 && At(mem', p, b) == view'[p].words[b] {
      if b != a { assert At(mem, p, b) == view[p].words[b]; }
    }
  }

  // --------------------------------------------------------- the beginning

  /** The next page boundary. */
  function PageUp(x: int): (r: int)
    ensures r % PAGE == 0 && x <= r < x + PAGE
  {
    (x + (PAGE - 1)) / PAGE * PAGE
  }

  /** The first malloc_extend_top, on an arena that has room for it: the first
      chunk is aligned and the arena ends at a page boundary. */
  method FirstExtend(lo: int, hi: int, nb: int) returns (h: Heap)
    requires AV_END <= lo && hi < WORD_LIMIT && hi - lo <= 0x7FFF_0000 && nb % 8 == 0 && nb >= MINSIZE
             && PageUp(lo + 7 + nb + MINSIZE) <= hi
    ensures fresh(h) && h.Valid() && Agrees(h.mem, h.s, map[]) && h.lo == lo && h.hi == hi
    ensures lo <= h.s.base == h.s.top < lo + 8 && h.s.size[h.s.top] >= nb + MINSIZE
            && h.brk == PageUp(h.s.base + nb + MINSIZE)
  {
    var sbrk_size := nb + MINSIZE;
    var br := lo;
    var front_misalign := (br + 8) % 8;
    var correction := 0;
    if front_misalign > 0 {
      correction := 8 - front_misalign;
      br := br + correction;
    }
    BaseAligned(lo, br);
    PagesUp(br + sbrk_size, lo + 7 + sbrk_size);
    correction := correction + PageUp(br + sbrk_size) - (br + sbrk_size);
    var new_brk := lo + sbrk_size;
    var top_size := new_brk - br + correction;
    h := new Heap(lo, hi, br, br + top_size);
  }

  lemma BaseAligned(lo: int, br: int)
    requires lo >= 0 && (if (lo + 8) % 8 > 0 then br == lo + (8 - (lo + 8) % 8) else br == lo)
    ensures br % 8 == 0 && lo <= br < lo + 8
  {
    var q := (lo + 8) / 8;
    Multiple(q);
    Multiple(q - 1);
  }

  lemma PagesUp(x: int, y: int)
    requires 0 <= x <= y
    ensures PageUp(x) <= PageUp(y) && PageUp(x) % PAGE == 0 && PageUp(x) >= x
  {
    var i, j := (x + (PAGE - 1)) / PAGE, (y + (PAGE - 1)) / PAGE;
    assert i <= j;
    assert i * PAGE == PAGE * i;
  }

  // -------------------------------------------------------------- whole runs

  /** A call of the allocator, or a store into a block; blocks are named by
      their place in the caller's list of pointers. */
  datatype Request =
    | Alloc(bytes: nat)
    | AlignedAlloc(log: nat, bytes: nat)
    | Dispose(i: nat)
    | Resize(i: nat, bytes: nat)
    | Put(i: nat, offset: nat, word: int)
    | TrimArena(pad: int)

  /** What the callers know after a request: the answer `r` is the new pointer,
      if there is one, or 0. */
  function After(view: View, ptrs: seq<int>, req: Request, r: int): (View, seq<int>) {
    match req
    case Alloc(bytes) => if r == 0 then (view, ptrs) else (view[r - 8 := Block(PadRequest(bytes), map[])], ptrs + [r])
    case AlignedAlloc(_, bytes) => if r == 0 then (view, ptrs)
      else (view[r - 8 := Block(PadRequest(bytes), map[])], ptrs + [r])
    case Dispose(i) => if i < |ptrs| then (view - {ptrs[i] - 8}, ptrs[..i] + ptrs[i + 1..]) else (view, ptrs)
    case Resize(i, bytes) =>
      if i < |ptrs| && r != 0 && ptrs[i] - 8 in view then
        ((view - {ptrs[i] - 8})[r - 8 := Block(PadRequest(bytes), Prefix(view[ptrs[i] - 8].words, PadRequest(bytes)))],
          ptrs[i := r])
      else (view, ptrs)
    case Put(i, offset, word) =>
      if i < |ptrs| && r != 0 && ptrs[i] - 8 in view then
        var b := view[ptrs[i] - 8];
        (view[ptrs[i] - 8 := Block(b.nb, b.words[8 + 4 * offset := word])], ptrs)
      else (view, ptrs)
    case TrimArena(_) => (view, ptrs)
  }

  /** The shape of the heap and the break, between two requests. */
  datatype Situation = Situation(s: Shape, brk: int)

  /** The requests that the arithmetic of the program bears in this situation. */
  ghost predicate Allowed(t: Situation, ptrs: seq<int>, req: Request) {
    match req
    case Alloc(bytes) => bytes < WORD_LIMIT
    case AlignedAlloc(log, bytes) => bytes < WORD_LIMIT && TotalHolds(Pow2(log), bytes)
    case Resize(i, bytes) =>
      bytes < WORD_LIMIT
      && (i < |ptrs| && ptrs[i] - 8 in t.s.size && bytes < LONG_LIMIT ==>
          TestHolds(t.s, ptrs[i] - 8, PadRequest(bytes)))
    case TrimArena(pad) => 0 <= pad < WORD_LIMIT && t.s.top in t.s.size && TrimIntact(t.s.size[t.s.top], pad)
    case _ => true
  }

  /** The answer is the one the situation demands: 0 only when nothing suffices,
      a pointer with the alignment asked for otherwise. */
  ghost predicate Answered(t: Situation, hi: int, ptrs: seq<int>, req: Request, r: int) {
    match req
    case Alloc(bytes) =>
      (r == 0 <==> bytes >= LONG_LIMIT || Refused(t.s, t.brk, hi, PadRequest(bytes))) && r % 8 == 0
    case AlignedAlloc(log, bytes) =>
      (r == 0 <==> CannotAlign(t.s, t.brk, hi, Pow2(log), bytes)) && r % Pow2(log) == 0 && r % 8 == 0
    case Dispose(_) => r == 0
    case Resize(i, bytes) =>
      r % 8 == 0
      && if i < |ptrs| && ptrs[i] - 8 in t.s.size
         then (r == 0 <==> CannotResize(t.s, t.brk, hi, ptrs[i] - 8, bytes))
              && (bytes < LONG_LIMIT && PadRequest(bytes) <= t.s.size[ptrs[i] - 8] ==> r == ptrs[i])
         else r == 0
    case Put(i, offset, _) => r != 0 <==>
        i < |ptrs| && ptrs[i] - 8 in t.s.size && 8 + 4 * offset < t.s.size[ptrs[i] - 8] + 4
    case TrimArena(pad) => t.s.top in t.s.size && r == if TrimExtra(t.s.size[t.s.top], pad) < PAGE then 0 else 1
  }

  /** A store that lies inside what was asked for is always carried out. */
  lemma PutInside(t: Situation, hi: int, view: View, ptrs: seq<int>, i: nat, offset: nat, word: int, bytes: nat, r: int)
    requires InUse(t.s, view) && i < |ptrs| && ptrs[i] - 8 in view && view[ptrs[i] - 8].nb == PadRequest(bytes)
    requires bytes <= 0x7FFF_FFF4 && 4 * offset < bytes && Answered(t, hi, ptrs, Put(i, offset, word), r)
    ensures r != 0
  {
    hide PadRequest;
    PadSuits(bytes);
    assert Sized(t.s, ptrs[i] - 8, view[ptrs[i] - 8].nb);
    PadWords(bytes, offset);
  }

  /** The padded size covers every word that begins inside the request. */
  lemma PadWords(bytes: nat, offset: nat)
    requires bytes <= 0x7FFF_FFF4 && 4 * offset < bytes
    ensures 8 + 4 * offset < PadRequest(bytes) + 4
  {
  }

  /** No free chunk lies next to another or to `top`. */
  ghost predicate Coalesced(s: Shape) {
    forall c :: c in s.home && c in s.size ==> Next(s, c) !in s.home && Next(s, c) != s.top
  }

  /** Chunks tile the arena from its beginning to the break, the free ones are in
      their bins and apart, and the others are the blocks of the view. */
  ghost predicate Sensible(t: Situation, base: int, hi: int, view: View) {
    Tiled(t.s) && Binned(t.s) && Coalesced(t.s) && t.s.base == base && t.s.top in t.s.size
    && Next(t.s, t.s.top) == t.brk <= hi && InUse(t.s, view)
  }

  /** Blocks other than `p` that stay in use keep their size. */
  ghost predicate SizesKept(s: Shape, s': Shape, p: int) {
    forall q {:trigger Live(s', q)} {:trigger Live(s, q)} :: Live(s, q) && Live(s', q) && q != p ==>
        s'.size[q] == s.size[q]
  }

  /** Nothing has become of the request, but if chunks have been searched for one
      the last remainder is in the bin of its size now. */
  ghost predicate Unserved(t: Situation, u: Situation, searched: bool) {
    u.s.size == t.s.size && u.brk == t.brk && u.s == if searched then Passed(t.s) else t.s
  }

  /** What a request makes of the situation: the block comes from the chunk that
      it should come from, the break moves as the arena is extended and `top` is
      trimmed, and a request that is refused changes nothing. */
  ghost predicate Follows(t: Situation, u: Situation, ptrs: seq<int>, req: Request, r: int) {
    u.s.base == t.s.base
    && match req
       case Alloc(bytes) =>
         SizesKept(t.s, u.s, NOGAP)
         && if r == 0 then Unserved(t, u, bytes < LONG_LIMIT)
            else Chosen(t.s, r - 8, PadRequest(bytes)) && u.brk == Extended(t.s, t.brk, PadRequest(bytes))
                 && Carved(t.s, u.s, r - 8, PadRequest(bytes), u.brk - t.brk)
       case AlignedAlloc(log, bytes) =>
         SizesKept(t.s, u.s, NOGAP)
         && if r == 0 then
              Unserved(t, u, bytes < LONG_LIMIT && (Pow2(log) <= 8 || AlignTotal(Pow2(log), bytes) < LONG_LIMIT))
            else Settled(Extended(t.s, t.brk, MallocSize(Pow2(log), bytes)), u.s.top, u.brk)
                 && Aligns(t.s, u.s, r, Pow2(log), PadRequest(bytes), u.brk)
       case Dispose(i) =>
         if i < |ptrs| then
           SizesKept(t.s, u.s, ptrs[i] - 8) && FreedAny(t.s, u.s, ptrs[i] - 8, u.brk)
           && ((u.s.top == t.s.top && u.brk == t.brk) || (u.s.top < t.s.top && Trimmed(t.brk, u.s.top, u.brk)))
         else u == t
       case Resize(i, bytes) =>
         if i < |ptrs| && ptrs[i] - 8 in t.s.size then
           SizesKept(t.s, u.s, ptrs[i] - 8)
           && if r == 0 then Unserved(t, u, bytes < LONG_LIMIT)
              else Settled(BrkToResize(t.s, t.brk, ptrs[i] - 8, PadRequest(bytes)), u.s.top, u.brk)
                   && Resizes(t.s, u.s, ptrs[i] - 8, r - 8, PadRequest(bytes), u.brk)
         else u == t
       case Put(_, _, _) => u == t
       case TrimArena(pad) =>
         t.s.top in t.s.size && u.brk == t.brk - (if r == 1 then TrimExtra(t.s.size[t.s.top], pad) else 0)
         && u.s == Resized(t.s, u.brk - u.s.top)
  }

  lemma SizesAfter(mem: Memory, s: Shape, mem': Memory, s': Shape, p: int)
    requires Keeps(mem, s, mem', s', p)
    ensures SizesKept(s, s', p)
  {
  }

  lemma NowSensible(h: Heap, view: View)
    requires h.Valid() && Agrees(h.mem, h.s, view)
    ensures Sensible(Situation(h.s, h.brk), h.base, h.hi, view)
  {
    forall c | c in h.s.home && c in h.s.size
      ensures Next(h.s, c) !in h.s.home && Next(h.s, c) != h.s.top
    {
      NextTells(h.mem, h.s, c);
    }
  }

  predicate HasPtr(ptrs: seq<int>, p: int) {
    p + 8 in ptrs
  }

  /** The caller's pointers are those of the blocks, each once. */
  ghost predicate Listed(view: View, ptrs: seq<int>) {
    (forall i {:trigger ptrs[i]} :: 0 <= i < |ptrs| ==> ptrs[i] - 8 in view)
    && (forall i, j {:trigger ptrs[i], ptrs[j]} :: 0 <= i < j < |ptrs| ==> ptrs[i] != ptrs[j])
    && forall p {:trigger HasPtr(ptrs, p)} :: p in view ==> HasPtr(ptrs, p)
  }

  /** The state of the allocator and what its callers know of it. */
  ghost predicate Consistent(h: Heap, view: View, ptrs: seq<int>)
    reads h
  {
    h.Valid() && Agrees(h.mem, h.s, view) && Listed(view, ptrs)
  }

  lemma ListedNew(view: View, ptrs: seq<int>, c: int, b: Block)
    requires Listed(view, ptrs) && c !in view
    ensures Listed(view[c := b], ptrs + [c + 8])
  {
    var view', ptrs' := view[c := b], ptrs + [c + 8];
    forall p | p in view'
      ensures HasPtr(ptrs', p)
    {
      if p == c { assert ptrs'[|ptrs|] == c + 8; } else { assert HasPtr(ptrs, p); }
    }
    forall i, j | 0 <= i < j < |ptrs'| ensures ptrs'[i] != ptrs'[j] { if j == |ptrs| { assert ptrs[i] - 8 in view; } }
  }

  lemma ListedGone(view: View, ptrs: seq<int>, i: nat)
    requires Listed(view, ptrs) && i < |ptrs|
    ensures Listed(view - {ptrs[i] - 8}, ptrs[..i] + ptrs[i + 1..])
  {
    var view', ptrs' := view - {ptrs[i] - 8}, ptrs[..i] + ptrs[i + 1..];
    forall k | 0 <= k < |ptrs'| ensures ptrs'[k] - 8 in view' {
      var x := if k < i then k else k + 1;
      assert ptrs'[k] == ptrs[x] && ptrs[x] - 8 in view && ptrs[x] != ptrs[i];
    }
    forall j, k | 0 <= j < k < |ptrs'| ensures ptrs'[j] != ptrs'[k] {
      var x, y := if j < i then j else j + 1, if k < i then k else k + 1;
      assert ptrs'[j] == ptrs[x] && ptrs'[k] == ptrs[y] && ptrs[x] != ptrs[y];
    }
    forall p | p in view' ensures HasPtr(ptrs', p) {
      assert HasPtr(ptrs, p);
      RestHas(ptrs, i, p + 8);
    }
  }

  lemma RestHas(ptrs: seq<int>, i: nat, x: int)
    requires i < |ptrs| && x in ptrs && x != ptrs[i]
    ensures x in ptrs[..i] + ptrs[i + 1..]
  {
    var k :| 0 <= k < |ptrs| && ptrs[k] == x;
    assert (ptrs[..i] + ptrs[i + 1..])[if k < i then k else k - 1] == x;
  }

  lemma ListedMoved(view: View, ptrs: seq<int>, i: nat, r: int, b: Block)
    requires Listed(view, ptrs) && i < |ptrs| && (r == ptrs[i] || r - 8 !in view)
    ensures Listed((view - {ptrs[i] - 8})[r - 8 := b], ptrs[i := r])
  {
    var view', ptrs' := (view - {ptrs[i] - 8})[r - 8 := b], ptrs[i := r];
    forall p | p in view' ensures HasPtr(ptrs', p) {
      InUpdated(ptrs, i, r, p + 8);
      assert p != r - 8 ==> p in view && HasPtr(ptrs, p);
    }
    forall k | 0 <= k < |ptrs'|
      ensures ptrs'[k] - 8 in view'
    {
      assert ptrs[k] - 8 in view && (k != i ==> ptrs[k] != ptrs[i]);
    }
    forall j, k | 0 <= j < k < |ptrs'| ensures ptrs'[j] != ptrs'[k] {
      if j == i { OtherPtr(view, ptrs, i, r, k); } else if k == i { OtherPtr(view, ptrs, i, r, j); }
        else { assert ptrs[j] != ptrs[k]; }
    }
  }

  lemma OtherPtr(view: View, ptrs: seq<int>, i: nat, r: int, k: nat)
    requires Listed(view, ptrs) && i < |ptrs| && k < |ptrs| && k != i && (r == ptrs[i] || r - 8 !in view)
    ensures ptrs[k] != r
  {
    assert ptrs[k] - 8 in view;
    if k < i { assert ptrs[k] != ptrs[i]; } else { assert ptrs[i] != ptrs[k]; }
  }

  lemma InUpdated(ptrs: seq<int>, i: nat, r: int, x: int)
    requires i < |ptrs|
    ensures x == r || (x in ptrs && x != ptrs[i]) ==> x in ptrs[i := r]
  {
    assert ptrs[i := r][i] == r;
    if x in ptrs && x != ptrs[i] {
      var k :| 0 <= k < |ptrs| && ptrs[k] == x;
      assert ptrs[i := r][k] == x;
    }
  }

  ghost function Now(h: Heap): Situation
    reads h
  {
    Situation(h.s, h.brk)
  }

  /** What a caller can look at before the call. */
  method Bears(h: Heap, ptrs: seq<int>, req: Request, ghost view: View) returns (ok: bool)
    requires Consistent(h, view, ptrs)
    ensures ok <==> Allowed(Now(h), ptrs, req)
  {
    hide Agrees, Listed, Tags, Links, Binned, Indexed, PadRequest, TotalHolds, TrimIntact;
    match req {
      case Alloc(bytes) => ok := bytes < WORD_LIMIT;
      case AlignedAlloc(log, bytes) => ok := bytes < WORD_LIMIT && TotalHolds(Pow2(log), bytes);
      case Resize(i, bytes) =>
        ok := bytes < WORD_LIMIT;
        if i < |ptrs| {
          PtrLive(h.mem, h.s, view, ptrs, i);
          BlockTells(h.mem, h.s, ptrs[i] - 8);
          var end := ptrs[i] - 8 + ChunkSize(h.mem, ptrs[i] - 8);
          ok := ok && (bytes >= LONG_LIMIT || PadRequest(bytes) + MINSIZE < LONG_LIMIT || end != h.top);
        }
      case TrimArena(pad) =>
        TopTells(h.mem, h.s);
        ok := 0 <= pad < WORD_LIMIT && TrimIntact(ChunkSize(h.mem, h.top), pad);
      case _ => ok := true;
    }
  }

  /** One request, any of them. */
  method Serve(h: Heap, req: Request, ptrs: seq<int>, ghost view: View) returns (r: int, ptrs': seq<int>)
    requires Consistent(h, view, ptrs) && Allowed(Now(h), ptrs, req)
    modifies h`mem, h`s, h`top, h`brk, h`binblocks
    ensures Consistent(h, After(view, ptrs, req, r).0, ptrs') && ptrs' == After(view, ptrs, req, r).1
    ensures Answered(old(Now(h)), h.hi, ptrs, req, r) && Follows(old(Now(h)), Now(h), ptrs, req, r)
  {
    hide Agrees, Listed, Tags, Links, Binned, Indexed, Prefix, PadRequest, CanGrow, TotalHolds, TrimExtra, Chosen,
         Extended, Trimmed, SizesKept, Resized, TrimIntact, Carved, Passed, Aligns, FreedAny, Resizes;
    match req {
      case Alloc(_) => r, ptrs' := ServeAlloc(h, req, ptrs, view);
      case AlignedAlloc(_, _) => r, ptrs' := ServeAlloc(h, req, ptrs, view);
      case Dispose(i) =>
        r, ptrs' := 0, ptrs;
        if i < |ptrs| {
          ptrs' := ServeDispose(h, i, ptrs, view);
        }
      case Resize(i, bytes) =>
        r, ptrs' := 0, ptrs;
        if i < |ptrs| {
          r, ptrs' := ServeResize(h, i, bytes, ptrs, view);
        }
      case Put(i, offset, word) =>
        r, ptrs' := 0, ptrs;
        if i < |ptrs| {
          r := ServePut(h, i, offset, word, ptrs, view);
        }
      case TrimArena(pad) =>
        r := ServeTrim(h, pad, view);
        ptrs' := ptrs;
    }
  }

  method ServeAlloc(h: Heap, req: Request, ptrs: seq<int>, ghost view: View) returns (r: int, ptrs': seq<int>)
    requires Consistent(h, view, ptrs) && Allowed(Now(h), ptrs, req) && (req.Alloc? || req.AlignedAlloc?)
    modifies h`mem, h`s, h`top, h`brk, h`binblocks
    ensures Consistent(h, After(view, ptrs, req, r).0, ptrs') && ptrs' == After(view, ptrs, req, r).1
    ensures Answered(old(Now(h)), h.hi, ptrs, req, r) && Follows(old(Now(h)), Now(h), ptrs, req, r)
  {
    hide Agrees, Listed, Tags, Links, Binned, Indexed, Released, Allocated, Keeps, Refused, PadRequest, TotalHolds,
         Chosen, Extended, Trimmed, SizesKept, TrimExtra, Carved, Passed, Aligns;
    ghost var mem0, s0 := h.mem, h.s;
    if req.Alloc? {
      r := Malloc(h, req.bytes);
    } else {
      r := Memalign(h, Pow2(req.log), req.bytes);
      ZeroAligned(Pow2(req.log));
    }
    ptrs' := if r == 0 then ptrs else ptrs + [r];
    AllocServed(mem0, s0, h.mem, h.s, view, ptrs, r, PadRequest(req.bytes));
  }

  method ServeDispose(h: Heap, i: nat, ptrs: seq<int>, ghost view: View) returns (ptrs': seq<int>)
    requires Consistent(h, view, ptrs) && i < |ptrs|
    modifies h`mem, h`s, h`top, h`brk, h`binblocks
    ensures Consistent(h, After(view, ptrs, Dispose(i), 0).0, ptrs') && ptrs' == After(view, ptrs, Dispose(i), 0).1
    ensures Follows(old(Now(h)), Now(h), ptrs, Dispose(i), 0)
  {
    hide Agrees, Listed, Tags, Links, Binned, Indexed, LiveChange, Keeps, Trimmed, SizesKept, FreedAny;
    ghost var mem0, s0 := h.mem, h.s;
    PtrLive(mem0, s0, view, ptrs, i);
    Free(h, ptrs[i]);
    SizesAfter(mem0, s0, h.mem, h.s, ptrs[i] - 8);
    ReleasedView(mem0, s0, h.mem, h.s, view, ptrs[i] - 8);
    ListedGone(view, ptrs, i);
    ptrs' := ptrs[..i] + ptrs[i + 1..];
  }

  lemma ZeroAligned(n: nat)
    requires n > 0
    ensures 0 % n == 0
  {
  }

  method ServeTrim(h: Heap, pad: int, ghost view: View) returns (r: int)
    requires h.Valid() && Agrees(h.mem, h.s, view) && 0 <= pad < WORD_LIMIT && TrimIntact(h.s.size[h.s.top], pad)
    modifies h`mem, h`s, h`brk
    ensures h.Valid() && Agrees(h.mem, h.s, view)
    ensures r == if TrimExtra(old(h.s).size[old(h.s).top], pad) < PAGE then 0 else 1
    ensures h.s == Resized(old(h.s), h.brk - h.s.top) && h.s.base == old(h.s).base
    ensures h.brk == old(h.brk) - if r == 1 then TrimExtra(old(h.s).size[old(h.s).top], pad) else 0
  {
    hide Agrees, Tags, Links, Binned, Indexed, Released, TrimExtra, TrimIntact, TrimLeaves, GivenBack, TopBroken,
         Resized;
    ghost var mem0, s0 := h.mem, h.s;
    r := Trim(h, pad);
    NothingGone(mem0, s0, h.mem, h.s, view);
  }

  lemma AllocServed(mem: Memory, s: Shape, mem': Memory, s': Shape, view: View, ptrs: seq<int>, r: int, nb: int)
    requires Tiled(s) && Tiled(s') && Agrees(mem, s, view) && Listed(view, ptrs)
    requires r != 0 ==> Allocated(mem, s, mem', s', r - 8, nb)
    requires r == 0 ==> Released(mem, s, mem', s', NOGAP)
    ensures r == 0 ==> Agrees(mem', s', view)
    ensures r != 0 ==>
              Agrees(mem', s', view[r - 8 := Block(nb, map[])]) && Listed(view[r - 8 := Block(nb, map[])], ptrs + [r])
    ensures r % 8 == 0 && SizesKept(s, s', NOGAP)
  {
    SizesAfter(mem, s, mem', s', NOGAP);
    if r == 0 {
      NothingGone(mem, s, mem', s', view);
    } else {
      AllocatedView(mem, s, mem', s', view, r - 8, nb);
      ListedNew(view, ptrs, r - 8, Block(nb, map[]));
      PointerAligned(s', r - 8);
    }
  }

  lemma PointerAligned(s: Shape, c: int)
    requires Tiled(s) && Live(s, c)
    ensures (c + 8) % 8 == 0
  {
    assert ChunkOK(s, c);
    SumAligned(c, 8);
  }

  lemma NothingGone(mem: Memory, s: Shape, mem': Memory, s': Shape, view: View)
    requires Tiled(s) && Agrees(mem, s, view) && Released(mem, s, mem', s', NOGAP)
    ensures Agrees(mem', s', view)
  {
    NoChunk(s);
    ReleasedView(mem, s, mem', s', view, NOGAP);
    assert NOGAP !in view;
    assert view - {NOGAP} == view;
  }

  lemma PtrLive(mem: Memory, s: Shape, view: View, ptrs: seq<int>, i: nat)
    requires Tiled(s) && Agrees(mem, s, view) && Listed(view, ptrs) && i < |ptrs|
    ensures ptrs[i] != 0 && Live(s, ptrs[i] - 8) && ptrs[i] - 8 in view
  {
    assert ptrs[i] - 8 in view;
    assert ChunkOK(s, ptrs[i] - 8);
  }

  method ServeResize(h: Heap, i: nat, bytes: nat, ptrs: seq<int>, ghost view: View) returns (r: int, ptrs': seq<int>)
    requires Consistent(h, view, ptrs) && Allowed(Now(h), ptrs, Resize(i, bytes)) && i < |ptrs|
    modifies h`mem, h`s, h`top, h`brk, h`binblocks
    ensures Consistent(h, After(view, ptrs, Resize(i, bytes), r).0, ptrs')
            && ptrs' == After(view, ptrs, Resize(i, bytes), r).1
    ensures Answered(old(Now(h)), h.hi, ptrs, Resize(i, bytes), r)
    ensures Follows(old(Now(h)), Now(h), ptrs, Resize(i, bytes), r)
  {
    hide Agrees, Listed, Tags, Links, Binned, Indexed, Prefix, Released, Allocated, Reallocated, Keeps, Refused,
         PadRequest, CanGrow, SizesKept, Extended, Trimmed, Resizes, Passed, Carved, Chosen, Overgrown;
    ghost var mem0, s0 := h.mem, h.s;
    PtrLive(mem0, s0, view, ptrs, i);
    r := Realloc(h, ptrs[i], bytes);
    ResizedSizes(mem0, s0, h.mem, h.s, ptrs[i] - 8, r, PadRequest(bytes));
    if r == 0 {
      NothingGone(mem0, s0, h.mem, h.s, view);
      ptrs' := ptrs;
    } else {
      ghost var b := Block(PadRequest(bytes), Prefix(view[ptrs[i] - 8].words, PadRequest(bytes)));
      ReallocatedView(mem0, s0, h.mem, h.s, view, ptrs[i] - 8, r - 8, PadRequest(bytes));
      MovedElsewhere(mem0, s0, h.mem, h.s, view, ptrs[i] - 8, r - 8, PadRequest(bytes));
      PointerAligned(h.s, r - 8);
      ListedMoved(view, ptrs, i, r, b);
      ptrs' := ptrs[i := r];
    }
  }

  lemma ResizedSizes(mem: Memory, s: Shape, mem': Memory, s': Shape, p: int, r: int, nb: int)
    requires if r == 0 then s'.size == s.size else Reallocated(mem, s, mem', s', p, r - 8, nb)
    ensures SizesKept(s, s', p)
  {
    if r != 0 { SizesAfter(mem, s, mem', s', p); }
  }

  lemma MovedElsewhere(mem: Memory, s: Shape, mem': Memory, s': Shape, view: View, p: int, q: int, nb: int)
    requires Agrees(mem, s, view) && Reallocated(mem, s, mem', s', p, q, nb)
    ensures (q == p || q !in view) && Live(s', q)
  {
    assert q in view ==> Live(s, q);
  }

  method ServePut(h: Heap, i: nat, offset: nat, word: int, ptrs: seq<int>, ghost view: View) returns (r: int)
    requires Consistent(h, view, ptrs) && i < |ptrs|
    modifies h`mem
    ensures Consistent(h, After(view, ptrs, Put(i, offset, word), r).0, ptrs)
    ensures Answered(Now(h), h.hi, ptrs, Put(i, offset, word), r) && Now(h) == old(Now(h))
  {
    hide Agrees, Listed, Tags, Links, Binned, Indexed, Prefix, Keeps;
    PtrLive(h.mem, h.s, view, ptrs, i);
    ghost var mem0 := h.mem;
    var p := ptrs[i] - 8;
    BlockTells(h.mem, h.s, p);
    var a := 8 + 4 * offset;
    if a >= ChunkSize(h.mem, p) + 4 {
      return 0;
    }
    FourTimes(offset);
    Store(h, p, a, word);
    StoredView(mem0, h.s, view, p, a, word);
    ListedSame(view, ptrs, p, Block(view[p].nb, view[p].words[a := word]));
    r := 1;
  }

  lemma FourTimes(k: nat)
    ensures (8 + 4 * k) % 4 == 0
  {
    assert 8 + 4 * k == 4 * (2 + k);
  }

  lemma ListedSame(view: View, ptrs: seq<int>, p: int, b: Block)
    requires Listed(view, ptrs) && p in view
    ensures Listed(view[p := b], ptrs)
  {
    forall q | q in view[p := b] ensures HasPtr(ptrs, q) { assert q in view; }
  }

  /** What the callers know after a whole run. */
  ghost function AfterAll(view: View, ptrs: seq<int>, reqs: seq<Request>, answers: seq<int>): (View, seq<int>)
    requires |answers| == |reqs|
  {
    if |reqs| == 0 then (view, ptrs)
    else
      var (v, p) := AfterAll(view, ptrs, reqs[..|reqs| - 1], answers[..|reqs| - 1]);
      After(v, p, reqs[|reqs| - 1], answers[|reqs| - 1])
  }

  /** What the callers know after the first `k` requests. */
  ghost function Known(reqs: seq<Request>, answers: seq<int>, k: nat): (View, seq<int>)
    requires k <= |answers| && k <= |reqs|
  {
    AfterAll(map[], [], reqs[..k], answers[..k])
  }

  /** Every request was one the program bears, in a situation that fits what the
      callers knew, and was answered and served as the situation demands. */
  ghost predicate WellServed(base: int, hi: int, reqs: seq<Request>, answers: seq<int>, states: seq<Situation>) {
    |answers| <= |reqs| && |states| == |answers| + 1
    && (forall k {:trigger states[k]} :: 0 <= k < |states| ==> Sensible(states[k], base, hi, Known(reqs, answers, k).0))
    && forall k {:trigger answers[k]} :: 0 <= k < |answers| ==>
         ServedAt(hi, Known(reqs, answers, k).1, reqs[k], answers[k], states[k], states[k + 1])
  }

  ghost predicate ServedAt(hi: int, ptrs: seq<int>, req: Request, r: int, t: Situation, u: Situation) {
    Allowed(t, ptrs, req) && Answered(t, hi, ptrs, req, r) && Follows(t, u, ptrs, req, r)
  }

  lemma KnownPrefix(reqs: seq<Request>, answers: seq<int>, r: int, k: nat)
    requires k <= |answers| < |reqs|
    ensures Known(reqs, answers + [r], k) == Known(reqs, answers, k)
    ensures k == |answers| ==>
              Known(reqs, answers + [r], k + 1) == After(Known(reqs, answers, k).0, Known(reqs, answers, k).1, reqs[k],
              r)
  {
    assert (answers + [r])[..k] == answers[..k];
    if k == |answers| {
      assert reqs[..k + 1][..k] == reqs[..k] && (answers + [r])[..k + 1] == answers + [r];
    }
  }

  lemma ServedOne(base: int, hi: int, reqs: seq<Request>, answers: seq<int>, states: seq<Situation>, r: int,
                  t: Situation)
    requires WellServed(base, hi, reqs, answers, states) && |answers| < |reqs|
    requires var (view, ptrs) := Known(reqs, answers, |answers|);
             ServedAt(hi, ptrs, reqs[|answers|], r, states[|answers|], t)
             && Sensible(t, base, hi, After(view, ptrs, reqs[|answers|], r).0)
    ensures WellServed(base, hi, reqs, answers + [r], states + [t])
  {
    hide Sensible, ServedAt, Known, After;
    var answers', states' := answers + [r], states + [t];
    forall k | 0 <= k < |states'| ensures Sensible(states'[k], base, hi, Known(reqs, answers', k).0) {
      if k < |states| { KnownPrefix(reqs, answers, r, k); } else { KnownPrefix(reqs, answers, r, k - 1); }
    }
    forall k | 0 <= k < |answers'|
      ensures ServedAt(hi, Known(reqs, answers', k).1, reqs[k], answers'[k], states'[k], states'[k + 1])
    {
      KnownPrefix(reqs, answers, r, k);
      if k < |answers| {
        assert states'[k] == states[k] && states'[k + 1] == states[k + 1] && answers'[k] == answers[k];
      }
    }
  }

  /** Any sequence of requests, up to the first that the program's arithmetic
      does not bear: each is answered as its situation demands, and makes of it
      the next one; the invariant holds at the end, and every block has the size
      asked for and holds exactly what was stored in it and not cut off since. */
  method ServeAll(h: Heap, reqs: seq<Request>) returns (answers: seq<int>, ptrs: seq<int>, ghost states: seq<Situation>)
    requires Consistent(h, map[], [])
    modifies h`mem, h`s, h`top, h`brk, h`binblocks
    ensures WellServed(h.base, h.hi, reqs, answers, states) && states[0] == old(Now(h)) && states[|answers|] == Now(h)
    ensures Consistent(h, Known(reqs, answers, |answers|).0, ptrs) && ptrs == Known(reqs, answers, |answers|).1
    ensures |answers| < |reqs| ==> !Allowed(Now(h), ptrs, reqs[|answers|])
  {
    hide Sensible, Allowed, Answered, Follows, After, Agrees, Listed;
    answers, ptrs, states := [], [], [Now(h)];
    assert Known(reqs, [], 0) == (map[], []);
    NowSensible(h, map[]);
    while |answers| < |reqs|
      invariant WellServed(h.base, h.hi, reqs, answers, states) && states[0] == old(Now(h))
                && states[|answers|] == Now(h)
      invariant Consistent(h, Known(reqs, answers, |answers|).0, ptrs) && ptrs == Known(reqs, answers, |answers|).1
      decreases |reqs| - |answers|
    {
      var ok := Bears(h, ptrs, reqs[|answers|], Known(reqs, answers, |answers|).0);
      if !ok { return; }
      ghost var view := Known(reqs, answers, |answers|).0;
      var r, ptrs' := Serve(h, reqs[|answers|], ptrs, view);
      KnownPrefix(reqs, answers, r, |answers|);
      NowSensible(h, After(view, ptrs, reqs[|answers|], r).0);
      ServedOne(h.base, h.hi, reqs, answers, states, r, Now(h));
      answers, ptrs, states := answers + [r], ptrs', states + [Now(h)];
    }
  }
}
