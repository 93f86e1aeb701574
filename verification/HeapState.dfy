// The allocator's static variables, its invariant, and the macros and small
// steps its routines are made of.
module HeapState {
  import opened Words
  import opened HeapWords
  import opened HeapShape
  import opened HeapTags
  import opened HeapLinks

  /** Every bin that holds a chunk is marked in the bit vector. */
  ghost predicate Indexed(binblocks: nat, bins: seq<seq<int>>) {
    binblocks < Pow2(32) && forall i {:trigger bins[i]} :: 2 <= i < NAV && i < |bins| && bins[i] != [] ==>
        HasBit(binblocks, i / BINBLOCKWIDTH)
  }

  class Heap {
    const lo: int           // mem_malloc_start
    const hi: int           // mem_malloc_end
    const base: int         // where the first chunk begins
    var brk: int            // mem_malloc_brk
    var mem: Memory
    var top: int
    var binblocks: nat
    ghost var s: Shape

    ghost predicate Bounded()
      reads this
    {
      lo <= base && s.base == base && brk <= hi < WORD_LIMIT && hi - lo <= 0x7FFF_0000 && brk % PAGE == 0
      && s.top in s.size && Next(s, s.top) == brk && top == s.top
    }

    /** All but the boundary tags. */
    ghost predicate Base()
      reads this
    {
      Tiled(s) && Binned(s) && Links(mem, s) && Indexed(binblocks, s.bins) && Bounded()
    }

    /** The invariant, with a chunk whose tags are not up to date. */
    ghost predicate Ready(g: int)
      reads this
    {
      Base() && Tags(mem, s, g)
    }

    /** The invariant between calls. */
    ghost predicate Valid()
      reads this
    {
      Ready(NOGAP)
    }

    /** The state after the first extension of the arena: one chunk, `top`. */
    constructor (lo: int, hi: int, base: int, end: int)
      requires AV_END <= lo <= base && base % 8 == 0 && base + MINSIZE <= end <= hi < WORD_LIMIT
               && hi - lo <= 0x7FFF_0000 && end % PAGE == 0
      ensures Valid() && this.lo == lo && this.hi == hi && this.base == base && brk == end && top == base
      ensures s == Shape(base, base, map[base := end - base], map[], seq(NAV, _ => []))
    {
      this.base := base;
      this.lo, this.hi, this.brk, this.top, this.binblocks := lo, hi, end, base, 0;
      ghost var s0 := Shape(base, base, map[base := end - base], map[], seq(NAV, _ => []));
      this.mem := Av()[base + 4 := end - base + 1];
      this.s := s0;
      new;
      PageAligned(end);
      SumAligned(end, base);
      FirstShape(s0);
      FirstLinks(base, end - base, s0);
      FirstTags(mem, s0);
    }
  }

  lemma PageAligned(x: int)
    requires x % PAGE == 0
    ensures x % 8 == 0
  {
    var k := x / PAGE;
    assert x == 8 * (512 * k);
    Multiple(512 * k);
  }

  ghost predicate Fresh(s: Shape) {
    s.base == s.top >= AV_END && s.base % 8 == 0 && s.size.Keys == {s.base} && s.size[s.base] % 8 == 0
    && s.size[s.base] >= MINSIZE
    && s.home == map[] && |s.bins| == NAV && forall i :: 0 <= i < NAV ==> s.bins[i] == []
  }

  lemma FirstShape(s: Shape)
    requires Fresh(s)
    ensures Tiled(s) && Binned(s)
  {
  }

  /** The initial contents of av_: every bin is its own neighbour. */
  function Av(): Memory {
    map a | AV + 16 <= a < AV_END + 8 && a % 4 == 0 :: BinAt((a - AV) / 8 - 1)
  }

  lemma FirstLinks(base: int, size: int, s: Shape)
    requires Fresh(s) && s.base == base
    ensures Links(Av()[base + 4 := size + 1], s)
  {
    var mem := Av()[base + 4 := size + 1];
    forall i | 1 <= i < NAV ensures Linked(mem, BinAt(i), s.bins[i]) {
      AvBin(i);
      assert Ring(BinAt(i), []) == [BinAt(i), BinAt(i)];
    }
  }

  lemma AvBin(i: int)
    requires 1 <= i < NAV
    ensures BinAt(i) + 8 in Av() && BinAt(i) + 12 in Av() && Fd(Av(), BinAt(i)) == BinAt(i)
            && Bk(Av(), BinAt(i)) == BinAt(i)
    ensures BinAt(i) + 12 < AV_END
  {
    assert (8 * i + 8) / 8 == i + 1 && (8 * i + 12) / 8 == i + 1;
    WordAligned(2 * i + 2);
    WordAligned(2 * i + 3);
  }

  lemma WordAligned(k: int)
    ensures (AV + 4 * k) % 4 == 0
  {
    assert AV + 4 * k == 4 * (AV / 4 + k);
  }

  lemma FirstTags(mem: Memory, s: Shape)
    requires Fresh(s) && Head(mem, s.base) == s.size[s.base] + 1
    ensures Tags(mem, s, NOGAP)
  {
    TagBit(s.size[s.base], 1);
  }

  // ----------------------------------------------------- what a step keeps

  /** Every block in use but `p` stays where it is, as large as it is, and holds
      what it held. */
  ghost predicate Keeps(mem: Memory, s: Shape, mem': Memory, s': Shape, p: int) {
    forall q {:trigger Live(s', q)} {:trigger SameRoom(mem, mem', s, q)} :: Live(s, q) && q != p ==>
      Live(s', q) && s'.size[q] == s.size[q] && SameRoom(mem, mem', s, q)
  }

  lemma KeepsStep(mem: Memory, s: Shape, mem1: Memory, s1: Shape, mem2: Memory, s2: Shape, p: int, g: int)
    requires Keeps(mem, s, mem1, s1, p) && Keeps(mem1, s1, mem2, s2, g) && (g == p || !Live(s, g))
    ensures Keeps(mem, s, mem2, s2, p)
  {
    forall q | Live(s, q) && q != p ensures Live(s2, q) && s2.size[q] == s.size[q] && SameRoom(mem, mem2, s, q) {
      assert Live(s1, q) && SameRoom(mem, mem1, s, q) && SameRoom(mem1, mem2, s1, q);
      forall a | InRoom(s, q, a) && a % 4 == 0 ensures W(mem2, a) == W(mem, a) { assert InRoom(s1, q, a); }
    }
  }

  /** Only links have been written. */
  lemma KeepsLinks(mem: Memory, s: Shape, mem': Memory, s': Shape, p: int)
    requires Tiled(s') && OnlyLinks(mem, mem', s') && s'.size == s.size && s'.top == s.top
    requires forall q :: q != p && q in s'.home ==> q in s.home
    ensures Keeps(mem, s, mem', s', p)
  {
    OnlyLinksKeep(mem, mem', s');
    forall q | Live(s, q) && q != p ensures Live(s', q) && s'.size[q] == s.size[q] && SameRoom(mem, mem', s, q) {
      assert SameRoom(mem, mem', s', q);
    }
  }

  /** The shape has changed around chunks that are not in use. */
  lemma KeepsShape(mem: Memory, s: Shape, s': Shape, p: int)
    requires forall q :: Live(s, q) && q != p ==> Live(s', q) && s'.size[q] == s.size[q]
    ensures Keeps(mem, s, mem, s', p)
  {
  }

  /** A head or a foot of a chunk not in use has been written. */
  lemma KeepsTag(mem: Memory, s: Shape, c: int, v: int, p: int)
    requires Tiled(s) && c in s.size
    ensures Keeps(mem, s, mem[c + 4 := v], s, p)
    ensures c != s.top && (c in s.home || c == p) ==> Keeps(mem, s, mem[Next(s, c) := v], s, p)
  {
    assert ChunkOK(s, c);
    forall q | Live(s, q) && q != p ensures SameRoom(mem, mem[c + 4 := v], s, q)
    && (c != q ==> SameRoom(mem, mem[Next(s, c) := v], s, q)) {
      assert ChunkOK(s, q) && Separate(s, q, c) && Separate(s, c, q);
    }
  }
}
