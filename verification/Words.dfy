// Powers of two, shifts, masks and bit reversal on unbounded naturals.
//
// A bit buffer holds its next bit in the lowest position, while a Huffman
// code is read with its first bit as the most significant one.  Every
// argument about the decoding tables therefore passes through `Rev`.
module Words {

  function Pow2(n: nat): (r: nat)
    ensures r > 0
  {
    if n == 0 then 1 else 2 * Pow2(n - 1)
  }

  /** `x & ((1 << n) - 1)` */
  function Low(n: nat, x: nat): (r: nat)
    ensures r < Pow2(n)
  {
    if n == 0 then 0 else x % 2 + 2 * Low(n - 1, x / 2)
  }

  /** `x >> n` */
  function Shr(n: nat, x: nat): (r: nat)
  {
    if n == 0 then x else Shr(n - 1, x / 2)
  }

  /** The lowest `n` bits of `x`, read in the opposite order. */
  function Rev(n: nat, x: nat): (r: nat)
    ensures r < Pow2(n)
  {
    if n == 0 then 0
    else if x % 2 == 1 then Pow2(n - 1) + Rev(n - 1, x / 2)
    else Rev(n - 1, x / 2)
  }

  // ---------------------------------------------------------------- products

  lemma MulMono(a: nat, b: nat, m: nat)
    requires a <= b
    ensures a * m <= b * m
  {
    assert b * m == a * m + (b - a) * m;
  }

  lemma MulMonoStrict(a: nat, b: nat, m: nat)
    requires a < b
    ensures a * m + m <= b * m
  {
    MulMono(a + 1, b, m);
    assert (a + 1) * m == a * m + m;
  }

  lemma MulTwice(a: nat, m: nat)
    ensures a * (2 * m) == 2 * (a * m)
  {
  }

  lemma MulSum(a: nat, b: nat, m: nat)
    ensures (a + b) * m == a * m + b * m
  {
  }

  lemma MulSucc(a: nat, m: nat)
    ensures (a + 1) * m == a * m + m
  {
  }

  lemma {:induction false} Pow2Add(a: nat, b: nat)
    ensures Pow2(a + b) == Pow2(a) * Pow2(b)
  {
    if a > 0 {
      Pow2Add(a - 1, b);
      assert Pow2(a) * Pow2(b) == 2 * (Pow2(a - 1) * Pow2(b));
    }
  }

  lemma {:induction false} Pow2Mono(a: nat, b: nat)
    requires a <= b
    ensures Pow2(a) <= Pow2(b)
  {
    if a < b { Pow2Mono(a, b - 1); }
  }

  // ----------------------------------------------------------- shift and mask

  /** Splitting a number at bit `n`. */
  lemma {:induction false} SplitAt(n: nat, x: nat)
    ensures x == Shr(n, x) * Pow2(n) + Low(n, x)
  {
    if n > 0 {
      SplitAt(n - 1, x / 2);
      MulTwice(Shr(n - 1, x / 2), Pow2(n - 1));
    }
  }

  lemma Halves(a: nat, b: nat)
    ensures (2 * a + b) / 2 == a + b / 2 && (2 * a + b) % 2 == b % 2
  {
  }

  lemma {:induction false} Recombine(n: nat, hi: nat, lo: nat)
    requires lo < Pow2(n)
    ensures Shr(n, hi * Pow2(n) + lo) == hi && Low(n, hi * Pow2(n) + lo) == lo
  {
    if n > 0 {
      MulTwice(hi, Pow2(n - 1));
      Halves(hi * Pow2(n - 1), lo);
      Recombine(n - 1, hi, lo / 2);
    }
  }

  lemma LowSmall(n: nat, x: nat)
    requires x < Pow2(n)
    ensures Low(n, x) == x && Shr(n, x) == 0
  {
    assert 0 * Pow2(n) == 0;
    Recombine(n, 0, x);
  }

  lemma {:induction false} LowLow(a: nat, b: nat, x: nat)
    ensures Low(a, Low(a + b, x)) == Low(a, x)
    ensures Shr(a, Low(a + b, x)) == Low(b, Shr(a, x))
  {
    if a > 0 {
      assert Low(a + b, x) / 2 == Low(a - 1 + b, x / 2);
      LowLow(a - 1, b, x / 2);
    }
  }

  lemma {:induction false} ShrShr(a: nat, b: nat, x: nat)
    ensures Shr(b, Shr(a, x)) == Shr(a + b, x)
  {
    if a > 0 { ShrShr(a - 1, b, x / 2); }
  }

  lemma LowSplit(a: nat, b: nat, x: nat)
    ensures Low(a + b, x) == Low(a, x) + Low(b, Shr(a, x)) * Pow2(a)
  {
    SplitAt(a, Low(a + b, x));
    LowLow(a, b, x);
  }

  // ------------------------------------------------------------- bit reversal

  lemma {:induction false} RevLow(n: nat, x: nat)
    ensures Rev(n, Low(n, x)) == Rev(n, x)
  {
    if n > 0 { RevLow(n - 1, x / 2); }
  }

  /** The first `a` bits of a string become its most significant ones. */
  lemma {:induction false} RevSplit(a: nat, b: nat, x: nat)
    ensures Rev(a + b, x) == Rev(a, x) * Pow2(b) + Rev(b, Shr(a, x))
  {
    if a > 0 {
      RevSplit(a - 1, b, x / 2);
      Pow2Add(a - 1, b);
      MulSum(Pow2(a - 1), Rev(a - 1, x / 2), Pow2(b));
    }
  }

  lemma RevLast(n: nat, x: nat)
    ensures Rev(n + 1, x) == 2 * Rev(n, x) + Shr(n, x) % 2
  {
    RevSplit(n, 1, x);
    assert Pow2(1) == 2 * Pow2(0) == 2;
    assert Rev(1, Shr(n, x)) == Shr(n, x) % 2;
  }

  lemma {:induction false} RevZero(n: nat)
    ensures Rev(n, 0) == 0
  {
    if n > 0 { RevZero(n - 1); }
  }

  /** The top bit of a string is the last one its reversal reads. */
  lemma RevTop(n: nat, top: nat, rest: nat)
    requires top < 2 && rest < Pow2(n)
    ensures Rev(n + 1, top * Pow2(n) + rest) == 2 * Rev(n, rest) + top
  {
    var y := top * Pow2(n) + rest;
    Recombine(n, top, rest);
    RevLast(n, y);
    RevLow(n, y);
  }

  lemma RevFirst(n: nat, x: nat)
    ensures Rev(n + 1, x) == x % 2 * Pow2(n) + Rev(n, x / 2) && Low(n + 1, x) == x % 2 + 2 * Low(n, x / 2)
  {
    hide Pow2;
    assert 0 * Pow2(n) == 0 && 1 * Pow2(n) == Pow2(n);
  }

  /** Reversing twice restores the low bits. */
  lemma {:induction false} RevRev(n: nat, x: nat)
    ensures Rev(n, Rev(n, x)) == Low(n, x)
  {
    if n > 0 {
      hide Rev, Low, Pow2;
      RevRev(n - 1, x / 2);
      RevFirst(n - 1, x);
      RevTop(n - 1, x % 2, Rev(n - 1, x / 2));
    }
  }

  lemma RevInjective(n: nat, x: nat, y: nat)
    requires Rev(n, x) == Rev(n, y)
    ensures Low(n, x) == Low(n, y)
  {
    RevRev(n, x);
    RevRev(n, y);
  }

  /** A code of `k` bits padded with zeros to `g` bits, left-justified. */
  lemma RevPad(k: nat, g: nat, i: nat)
    requires k <= g && i < Pow2(k)
    ensures Rev(g, i) == Rev(k, i) * Pow2(g - k)
  {
    RevSplit(k, g - k, i);
    LowSmall(k, i);
    RevZero(g - k);
  }
}
