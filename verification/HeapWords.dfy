// The allocator's memory, one word at a time, and its arithmetic: chunk
// fields, padded sizes, bin numbers and the bit vector of bin blocks.
module HeapWords {
  import opened Words

  const MINSIZE := 16
  const NAV := 128            // number of bins
  const BINBLOCKWIDTH := 4
  const MAX_SMALLBIN_SIZE := 512
  const PAGE := 4096
  const TRIM_THRESHOLD := 128 * 1024

  const WORD_LIMIT := 0x1_0000_0000
  const LONG_LIMIT := 0x8000_0000

  /** Where av_ lies; the arena begins after it. */
  const AV := 0x1000
  const AV_END := AV + 8 * (NAV + 1)

  type Memory = map<int, int>

  /** The word at address `a`; memory that was never written holds zeros. */
  function W(mem: Memory, a: int): int {
    if a in mem then mem[a] else 0
  }

  // The fields of a chunk.
  function PrevSize(mem: Memory, p: int): int { W(mem, p) }

  function Head(mem: Memory, p: int): int { W(mem, p + 4) }

  function Fd(mem: Memory, p: int): int { W(mem, p + 8) }

  function Bk(mem: Memory, p: int): int { W(mem, p + 12) }

  /** PREV_INUSE */
  function Bit(mem: Memory, p: int): int { Head(mem, p) % 2 }

  /** chunksize */
  function ChunkSize(mem: Memory, p: int): int { Head(mem, p) / 4 * 4 }

  lemma Halves(x: int, q: int, r: int)
    requires x == 2 * q + r && 0 <= r < 2
    ensures x % 2 == r && x / 2 == q
  {
  }

  lemma Quarters(x: int, q: int, r: int)
    requires x == 4 * q + r && 0 <= r < 4
    ensures x / 4 == q
  {
  }

  lemma Eighths(x: int) returns (k: int)
    requires x % 8 == 0
    ensures x == 8 * k
  {
    k := x / 8;
  }

  lemma Multiple(k: int)
    ensures (8 * k) % 8 == 0
  {
  }

  lemma SumAligned(a: int, b: int)
    requires a % 8 == 0 && b % 8 == 0
    ensures (a + b) % 8 == 0 && (a - b) % 8 == 0
  {
    var i := Eighths(a);
    var j := Eighths(b);
    Multiple(i + j);
    Multiple(i - j);
  }

  /** A size and its in-use bit share a word. */
  lemma TagBit(size: int, bit: int)
    requires size % 8 == 0 && 0 <= bit <= 1
    ensures (size + bit) % 2 == bit && (size + bit) / 2 * 2 == size && (size + bit) / 4 * 4 == size
  {
    var k := Eighths(size);
    Halves(size + bit, 4 * k, bit);
    Quarters(size + bit, 2 * k, bit);
  }

  /** bin_at */
  function BinAt(i: int): int { AV + 8 * i }

  // ---------------------------------------------------------------- sizes

  /** A word read as a signed number. */
  function Signed(x: int): int {
    if x < LONG_LIMIT then x else x - WORD_LIMIT
  }

  /** request2size, in 32-bit arithmetic */
  function PadRequest(req: nat): (r: nat)
    ensures r % 8 == 0
  {
    var t := (req + 11) % WORD_LIMIT;
    if Signed(t) < MINSIZE + 7 then MINSIZE else t / 8 * 8
  }

  /** A chunk of `size` bytes is the smallest aligned one with room for the
      request and its overhead word. */
  predicate Suits(size: nat, bytes: nat) {
    size % 8 == 0 && size >= MINSIZE && bytes + 4 <= size && (size == MINSIZE || size < bytes + 12)
  }

  /** Padding works for exactly the requests that do not overflow it: just
      below two gigabytes the result is a minimal chunk. */
  lemma PadSuits(bytes: nat)
    requires bytes < LONG_LIMIT
    ensures Suits(PadRequest(bytes), bytes) <==> bytes <= 0x7FFF_FFF4
    ensures bytes > 0x7FFF_FFF4 ==> PadRequest(bytes) == MINSIZE
    ensures bytes <= 0x7FFF_FFF4 ==> PadRequest(bytes) <= 0x7FFF_FFF8
  {
  }

  // ----------------------------------------------------------------- bins

  function BinIndex(sz: int): int
    requires sz >= 0
  {
    if sz / 512 == 0 then sz / 8
    else if sz / 512 <= 4 then 56 + sz / 64
    else if sz / 512 <= 20 then 91 + sz / 512
    else if sz / 512 <= 84 then 110 + sz / 4096
    else if sz / 512 <= 340 then 119 + sz / 32768
    else if sz / 512 <= 1364 then 124 + sz / 262144
    else 126
  }

  /** The smallest size in bin `i`: the bins are 8 bytes apart, then 64, 512 and so
      on. */
  function BinStart(i: int): int {
    if i <= 64 then 8 * i
    else if i <= 96 then 512 + 64 * (i - 64)
    else if i <= 112 then 2560 + 512 * (i - 96)
    else if i <= 120 then 12288 + 4096 * (i - 113)
    else if i <= 124 then 65536 + 32768 * (i - 121)
    else 262144 * (i - 124)
  }

  /** The last bin has no upper end. */
  lemma BinSpan(sz: int, i: int)
    requires sz >= MINSIZE && 2 <= i <= 126
    ensures BinIndex(sz) == i <==> BinStart(i) <= sz && (i < 126 ==> sz < BinStart(i + 1))
  {
  }

  lemma BinIndexRange(sz: int)
    requires sz >= MINSIZE
    ensures 2 <= BinIndex(sz) <= 126 && (sz < MAX_SMALLBIN_SIZE <==> BinIndex(sz) < 64)
  {
  }

  /** A chunk in a higher bin is larger. */
  lemma BinIndexMonotone(a: int, b: int)
    requires 0 <= a <= b
    ensures BinIndex(a) <= BinIndex(b)
  {
  }

  /** Chunks in a small bin are all of one size. */
  lemma SmallBinsExact(a: int, b: int)
    requires a >= 0 && b >= 0 && a % 8 == 0 && b % 8 == 0 && BinIndex(a) == BinIndex(b) < 64
    ensures a == b && a == 8 * BinIndex(a)
  {
  }

  // ------------------------------------------------------------ bit vector

  predicate HasBit(x: nat, k: nat) { Shr(k, x) % 2 == 1 }

  /** `x |= 1 << k` */
  function SetBit(x: nat, k: nat): nat {
    if HasBit(x, k) then x else x + Pow2(k)
  }

  /** `x &= ~(1 << k)` */
  function ClearBit(x: nat, k: nat): nat {
    BitBelow(x, k);
    if HasBit(x, k) then x - Pow2(k) else x
  }

  lemma BitBelow(x: nat, k: nat)
    ensures HasBit(x, k) ==> Pow2(k) <= x
  {
    SplitAt(k, x);
    if HasBit(x, k) { MulMono(1, Shr(k, x), Pow2(k)); }
  }

  /** Setting a bit changes that bit only. */
  lemma {:induction false} SetBitIs(x: nat, k: nat, j: nat)
    ensures HasBit(SetBit(x, k), j) <==> j == k || HasBit(x, j)
  {
    if k > 0 && j > 0 {
      SetBitIs(x / 2, k - 1, j - 1);
      assert SetBit(x, k) / 2 == SetBit(x / 2, k - 1);
    } else if k == 0 && j > 0 {
      assert SetBit(x, k) / 2 == x / 2;
    }
  }

  lemma {:induction false} ClearBitIs(x: nat, k: nat, j: nat)
    ensures HasBit(ClearBit(x, k), j) <==> j != k && HasBit(x, j)
  {
    if k > 0 && j > 0 {
      BitBelow(x / 2, k - 1);
      ClearBitIs(x / 2, k - 1, j - 1);
      assert ClearBit(x, k) / 2 == ClearBit(x / 2, k - 1);
    } else if k == 0 && j > 0 {
      assert ClearBit(x, k) / 2 == x / 2;
    }
  }

  lemma SetBitHalf(x: nat, k: nat)
    requires k > 0
    ensures SetBit(x, k) == 2 * SetBit(x / 2, k - 1) + x % 2
  {
  }

  lemma {:induction false} SetBitBound(x: nat, k: nat, n: nat)
    requires x < Pow2(n) && k < n
    ensures SetBit(x, k) < Pow2(n)
  {
    if k > 0 {
      SetBitHalf(x, k);
      hide SetBit;
      SetBitBound(x / 2, k - 1, n - 1);
    }
  }

  /** `(1 << k) <= x`: some bit at or above `k` is set. */
  lemma {:induction false} ReachesBit(x: nat, k: nat)
    ensures Pow2(k) <= x <==> Shr(k, x) >= 1
  {
    if k > 0 { ReachesBit(x / 2, k - 1); }
  }

  /** A clear bit can be stepped over. */
  lemma SkipBit(x: nat, k: nat)
    requires Shr(k, x) >= 1 && !HasBit(x, k)
    ensures Shr(k + 1, x) >= 1
  {
    ShrShr(k, 1, x);
  }

  /** A vector of `n` bits has none above. */
  lemma {:induction false} NoBitAbove(x: nat, n: nat, k: nat)
    requires x < Pow2(n) && n <= k
    ensures Shr(k, x) == 0
  {
    LowSmall(n, x);
    ShrShr(n, k - n, x);
    ShrZero(k - n);
  }

  lemma {:induction false} ShrZero(n: nat)
    ensures Shr(n, 0) == 0
  {
    if n > 0 { ShrZero(n - 1); }
  }

  /** A bit at or above `k` is reached from `k`. */
  lemma BitReached(x: nat, k: nat, j: nat)
    requires k <= j && HasBit(x, j)
    ensures Shr(k, x) >= 1
  {
    ShrShr(k, j - k, x);
    if Shr(k, x) == 0 { ShrZero(j - k); }
  }
}
