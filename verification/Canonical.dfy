// The canonical Huffman code of RFC 1951, section 3.2.2, as a plain
// definition: how many codes there are of each length, the first code of
// each length, and which code length a bit string starts with.
module Canonical {
  import opened Words

  const BMAX: nat := 15    // no code is longer
  const N_MAX: nat := 288  // no code has more symbols

  predicate ValidLengths(b: seq<nat>) {
    0 < |b| <= N_MAX && forall i :: 0 <= i < |b| ==> b[i] <= BMAX
  }

  predicate AllZero(b: seq<nat>) {
    forall i :: 0 <= i < |b| ==> b[i] == 0
  }

  /** How many of the code lengths in `b` equal `len` (bl_count). */
  function Count(b: seq<nat>, len: nat): (r: nat)
    ensures r <= |b|
  {
    if |b| == 0 then 0
    else Count(b[..|b| - 1], len) + (if b[|b| - 1] == len then 1 else 0)
  }

  /** The counts of lengths 0..BMAX. */
  function Counts(b: seq<nat>): (c: seq<nat>)
    ensures |c| == BMAX + 1
  {
    seq(BMAX + 1, (k: nat) => Count(b, k))
  }

  /** The smallest code of length `k` (next_code). */
  function First(c: seq<nat>, k: nat): nat
  {
    if k == 0 then 0 else 2 * Beyond(c, k - 1)
  }

  /** The number of `k`-bit patterns used up by codes of at most `k` bits. */
  function Beyond(c: seq<nat>, k: nat): nat
  {
    if k == 0 then 0
    else 2 * Beyond(c, k - 1) + (if k < |c| then c[k] else 0)
  }

  /** The code that section 3.2.2 assigns to symbol `sym`. */
  function Code(b: seq<nat>, sym: nat): nat
    requires sym < |b|
  {
    First(Counts(b), b[sym]) + Count(b[..sym], b[sym])
  }

  /** The string `str` starts with the code of `sym`. */
  predicate StartsWith(b: seq<nat>, sym: nat, str: nat)
    requires sym < |b|
  {
    b[sym] > 0 && Rev(b[sym], str) == Code(b, sym)
  }

  /** The lengths fill the code space exactly. */
  predicate Complete(c: seq<nat>, g: nat)
  {
    0 < g < |c| && Beyond(c, g) == Pow2(g)
  }

  /** The first `k` bits of `str` are a code of length `k`. */
  predicate CodeAt(c: seq<nat>, k: nat, str: nat)
  {
    0 < k < |c| && First(c, k) <= Rev(k, str) < Beyond(c, k)
  }

  /** The bit-by-bit decoder: keep reading until the value read so far falls
      below the codes used up at that length. */
  function LenFrom(c: seq<nat>, k: nat, str: nat): nat
    decreases |c| - k
  {
    if k >= |c| || Rev(k, str) < Beyond(c, k) then k else LenFrom(c, k + 1, str)
  }

  function LenOf(c: seq<nat>, str: nat): nat {
    LenFrom(c, 1, str)
  }

  // ---------------------------------------------------------------- order

  lemma {:induction false} BeyondGrows(c: seq<nat>, j: nat, k: nat)
    requires j <= k
    ensures Beyond(c, j) * Pow2(k - j) <= Beyond(c, k)
    ensures j < k ==> Beyond(c, j) * Pow2(k - j) <= First(c, k)
  {
    if j < k {
      BeyondGrows(c, j, k - 1);
      assert Beyond(c, j) * Pow2(k - j) == 2 * (Beyond(c, j) * Pow2(k - 1 - j));
    }
  }

  lemma NeverOver(c: seq<nat>, g: nat, k: nat)
    requires Complete(c, g) && k <= g
    ensures Beyond(c, k) <= Pow2(k)
  {
    BeyondGrows(c, k, g);
    Pow2Add(k, g - k);
    if Beyond(c, k) > Pow2(k) { MulMonoStrict(Pow2(k), Beyond(c, k), Pow2(g - k)); }
  }

  /** No proper prefix of a code is a code (the prefix property). */
  lemma PrefixFree(c: seq<nat>, k: nat, j: nat, str: nat)
    requires CodeAt(c, k, str) && j < k
    ensures Rev(j, str) >= Beyond(c, j)
  {
    RevSplit(j, k - j, str);
    BeyondGrows(c, j, k);
    if Rev(j, str) < Beyond(c, j) {
      MulMonoStrict(Rev(j, str), Beyond(c, j), Pow2(k - j));
    }
  }

  lemma {:induction false} LenFromIs(c: seq<nat>, j: nat, k: nat, str: nat)
    requires 0 < j <= k && CodeAt(c, k, str)
    ensures LenFrom(c, j, str) == k
    decreases k - j
  {
    if j < k {
      PrefixFree(c, k, j, str);
      LenFromIs(c, j + 1, k, str);
    }
  }

  lemma LenIs(c: seq<nat>, k: nat, str: nat)
    requires CodeAt(c, k, str)
    ensures LenOf(c, str) == k
  {
    LenFromIs(c, 1, k, str);
  }

  lemma {:induction false} LenFromFinds(c: seq<nat>, g: nat, j: nat, str: nat)
    requires Complete(c, g) && 0 < j <= g && First(c, j) <= Rev(j, str)
    ensures LenFrom(c, j, str) <= g && CodeAt(c, LenFrom(c, j, str), str)
    decreases g - j
  {
    if Rev(j, str) >= Beyond(c, j) {
      RevLast(j, str);
      if j < g { LenFromFinds(c, g, j + 1, str); }
    }
  }

  /** With a complete set every bit string starts with exactly one code. */
  lemma LenFinds(c: seq<nat>, g: nat, str: nat)
    requires Complete(c, g)
    ensures LenOf(c, str) <= g && CodeAt(c, LenOf(c, str), str)
  {
    LenFromFinds(c, g, 1, str);
  }

  /** Only the bits of the code itself decide. */
  lemma LenLocal(c: seq<nat>, k: nat, str: nat, str': nat)
    requires CodeAt(c, k, str) && Low(k, str) == Low(k, str')
    ensures CodeAt(c, k, str') && LenOf(c, str') == k
  {
    RevLow(k, str);
    RevLow(k, str');
    LenIs(c, k, str');
  }

  // ------------------------------------------------------------- positions

  /** The number of codes shorter than `k`: where length `k` starts in the
      list of symbols ordered by code length. */
  function Offset(c: seq<nat>, k: nat): nat
  {
    if k <= 1 then 0
    else Offset(c, k - 1) + (if k - 1 < |c| then c[k - 1] else 0)
  }

  lemma {:induction false} OffsetMono(c: seq<nat>, j: nat, k: nat)
    requires 0 < j < k && j < |c|
    ensures Offset(c, j) + c[j] <= Offset(c, k)
  {
    if j + 1 < k { OffsetMono(c, j, k - 1); }
  }

  /** Position of the code that `str` starts with. */
  function Position(c: seq<nat>, str: nat): int
  {
    var k := LenOf(c, str);
    Offset(c, k) + Rev(k, str) - First(c, k)
  }

  lemma {:induction false} CountAppend(b: seq<nat>, i: nat, len: nat)
    requires i < |b|
    ensures Count(b[..i + 1], len) == Count(b[..i], len) + (if b[i] == len then 1 else 0)
  {
    assert b[..i + 1][..i] == b[..i];
  }

  lemma {:induction false} ZeroCount(b: seq<nat>)
    ensures Count(b, 0) == |b| <==> AllZero(b)
  {
    if |b| > 0 { ZeroCount(b[..|b| - 1]); }
  }

  lemma {:induction false} CountMono(b: seq<nat>, i: nat, j: nat, len: nat)
    requires i <= j <= |b|
    ensures Count(b[..i], len) <= Count(b[..j], len)
  {
    if i < j {
      CountMono(b, i, j - 1, len);
      CountAppend(b, j - 1, len);
    }
  }

  /** Among symbols of equal length the rank tells them apart. */
  lemma RankInjective(b: seq<nat>, i: nat, j: nat)
    requires i < |b| && j < |b| && b[i] == b[j]
    requires Count(b[..i], b[i]) == Count(b[..j], b[j])
    ensures i == j
  {
    if i < j { CountAppend(b, i, b[i]); CountMono(b, i + 1, j, b[i]); }
    if j < i { CountAppend(b, j, b[i]); CountMono(b, j + 1, i, b[i]); }
  }

  lemma RankBelow(b: seq<nat>, i: nat)
    requires i < |b|
    ensures Count(b[..i], b[i]) < Count(b, b[i])
  {
    CountAppend(b, i, b[i]);
    CountMono(b, i + 1, |b|, b[i]);
    assert b[..|b|] == b;
  }

  // ------------------------------------------------------------- Kraft sum

  /** The share of the code space taken by one code length, out of 2^BMAX. */
  function Weight(len: nat): nat
    requires len <= BMAX
  {
    if len == 0 then 0 else Pow2(BMAX - len)
  }

  /** The Kraft sum of the lengths, scaled by 2^BMAX. */
  function Kraft(b: seq<nat>): nat
    requires forall i :: 0 <= i < |b| ==> b[i] <= BMAX
  {
    if |b| == 0 then 0
    else Kraft(b[..|b| - 1]) + Weight(b[|b| - 1])
  }

  /** The same sum taken length by length, up to length `k`. */
  function KraftTo(b: seq<nat>, k: nat): nat
    requires k <= BMAX
  {
    if k == 0 then 0 else KraftTo(b, k - 1) + Count(b, k) * Weight(k)
  }

  lemma {:induction false} KraftOfNone(b: seq<nat>)
    requires AllZero(b)
    ensures Kraft(b) == 0
  {
    if |b| > 0 { KraftOfNone(b[..|b| - 1]); }
  }

  lemma {:induction false} KraftToAppend(b: seq<nat>, len: nat, k: nat)
    requires k <= BMAX && len <= BMAX
    ensures KraftTo(b + [len], k) == KraftTo(b, k) + (if len <= k then Weight(len) else 0)
  {
    if k > 0 {
      KraftToAppend(b, len, k - 1);
      assert (b + [len])[..|b|] == b;
      if len == k {
        MulSucc(Count(b, k), Weight(k));
      }
    }
  }

  lemma {:induction false} KraftByLength(b: seq<nat>)
    requires forall i :: 0 <= i < |b| ==> b[i] <= BMAX
    ensures Kraft(b) == KraftTo(b, BMAX)
  {
    if |b| == 0 {
      KraftToEmpty(BMAX);
      assert b == [];
    } else {
      var b' := b[..|b| - 1];
      KraftByLength(b');
      KraftToAppend(b', b[|b| - 1], BMAX);
      assert b == b' + [b[|b| - 1]];
    }
  }

  lemma {:induction false} KraftToEmpty(k: nat)
    requires k <= BMAX
    ensures KraftTo([], k) == 0
  {
    if k > 0 { KraftToEmpty(k - 1); }
  }

  /** The patterns used up at length `k` are the Kraft sum so far. */
  lemma {:induction false} BeyondIsKraft(b: seq<nat>, k: nat)
    requires k <= BMAX
    ensures Beyond(Counts(b), k) * Pow2(BMAX - k) == KraftTo(b, k)
  {
    if k > 0 {
      BeyondIsKraft(b, k - 1);
      ScaleUp(Beyond(Counts(b), k - 1), Count(b, k), Pow2(BMAX - k));
      assert Pow2(BMAX - (k - 1)) == 2 * Pow2(BMAX - k);
      assert Counts(b)[k] == Count(b, k);
    }
  }

  lemma ScaleUp(x: nat, y: nat, w: nat)
    ensures (2 * x + y) * w == x * (2 * w) + y * w
  {
  }

  lemma {:induction false} KraftStops(b: seq<nat>, g: nat, k: nat)
    requires g <= k <= BMAX
    requires forall j :: g < j <= BMAX ==> Count(b, j) == 0
    ensures KraftTo(b, k) == KraftTo(b, g)
  {
    if g < k { KraftStops(b, g, k - 1); }
  }

  /** The Kraft sum against 1 is the final pattern count against 2^g. */
  lemma KraftAtMax(b: seq<nat>, g: nat)
    requires forall i :: 0 <= i < |b| ==> b[i] <= BMAX
    requires g <= BMAX && forall j :: g < j <= BMAX ==> Count(b, j) == 0
    ensures Kraft(b) == Beyond(Counts(b), g) * Pow2(BMAX - g)
    ensures Pow2(BMAX) == Pow2(g) * Pow2(BMAX - g)
    ensures Kraft(b) > Pow2(BMAX) <==> Beyond(Counts(b), g) > Pow2(g)
    ensures Kraft(b) == Pow2(BMAX) <==> Beyond(Counts(b), g) == Pow2(g)
  {
    KraftByLength(b);
    KraftStops(b, g, BMAX);
    BeyondIsKraft(b, g);
    Pow2Add(g, BMAX - g);
    var used := Beyond(Counts(b), g);
    if used > Pow2(g) { MulMonoStrict(Pow2(g), used, Pow2(BMAX - g)); }
    if used < Pow2(g) { MulMonoStrict(used, Pow2(g), Pow2(BMAX - g)); }
  }
}
