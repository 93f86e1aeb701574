// Adler-32 with the modulo taken only every NMAX bytes.
module Adler {
  import opened BitStream

  const BASE: nat := 65521
  const NMAX: nat := 5552

  type U32 = n: nat | n < 0x1_0000_0000

  datatype Sums = Sums(s1: nat, s2: nat)

  /** Section 8.2 of RFC 1950: both sums are reduced after every byte. */
  function Reduced(s: Sums, buf: seq<Byte>): Sums {
    if |buf| == 0 then s
    else
      var t := Reduced(s, buf[..|buf| - 1]);
      var s1 := (t.s1 + buf[|buf| - 1]) % BASE;
      Sums(s1, (t.s2 + s1) % BASE)
  }

  function Unpack(adler: U32): Sums {
    Sums(adler % 65536, adler / 65536)
  }

  function Pack(s: Sums): nat {
    s.s2 * 65536 + s.s1
  }

  /** The checksum of `buf`, continuing from `adler`. */
  function Checksum(adler: U32, buf: seq<Byte>): U32 {
    UnpackSmall(adler);
    ReducedSmall(Unpack(adler), buf);
    UnpackPack(Reduced(Unpack(adler), buf));
    Pack(Reduced(Unpack(adler), buf))
  }

  lemma ReducedSmall(s: Sums, buf: seq<Byte>)
    requires s.s1 < 65536 && s.s2 < 65536
    ensures Reduced(s, buf).s1 < 65536 && Reduced(s, buf).s2 < 65536
    ensures |buf| > 0 ==> Reduced(s, buf).s1 < BASE && Reduced(s, buf).s2 < BASE
  {
  }

  /** Checksumming in pieces is checksumming the whole. */
  lemma {:induction false} ReducedAppend(s: Sums, a: seq<Byte>, b: seq<Byte>)
    ensures Reduced(s, a + b) == Reduced(Reduced(s, a), b)
  {
    if |b| == 0 {
      assert a + b == a;
    } else {
      assert (a + b)[..|a + b| - 1] == a + b[..|b| - 1];
      ReducedAppend(s, a, b[..|b| - 1]);
    }
  }

  lemma ChecksumAppend(adler: U32, a: seq<Byte>, b: seq<Byte>)
    ensures Checksum(adler, a + b) == Checksum(Checksum(adler, a), b)
  {
    hide Reduced, Unpack, Pack;
    ReducedAppend(Unpack(adler), a, b);
    UnpackSmall(adler);
    ReducedSmall(Unpack(adler), a);
    UnpackPack(Reduced(Unpack(adler), a));
  }

  lemma UnpackSmall(adler: U32)
    ensures Unpack(adler).s1 < 65536 && Unpack(adler).s2 < 65536
  {
  }

  lemma UnpackPack(s: Sums)
    requires s.s1 < 65536 && s.s2 < 65536
    ensures Pack(s) < 0x1_0000_0000 && Unpack(Pack(s)) == s
  {
  }

  // ----------------------------------------------------------- known values

  lemma ReducedOne(s: Sums, buf: seq<Byte>, x: Byte, t: Sums)
    requires Reduced(s, buf) == t
    ensures Reduced(s, buf + [x]) == Sums((t.s1 + x) % BASE, (t.s2 + (t.s1 + x) % BASE) % BASE)
  {
    assert (buf + [x])[..|buf|] == buf;
  }

  const WORD: seq<Byte> := [0x57, 0x69, 0x6b, 0x69, 0x70, 0x65, 0x64, 0x69, 0x61]

  lemma Small(x: nat)
    requires x < BASE
    ensures x % BASE == x
  {
  }

  lemma WordPrefix(i: nat, a: nat, b: nat)
    requires i < 9 && Reduced(Sums(1, 0), WORD[..i]) == Sums(a, b) && b + a + WORD[i] < BASE
    ensures Reduced(Sums(1, 0), WORD[..i + 1]) == Sums(a + WORD[i], b + a + WORD[i])
  {
    hide Reduced;
    ReducedOne(Sums(1, 0), WORD[..i], WORD[i], Sums(a, b));
    assert WORD[..i + 1] == WORD[..i] + [WORD[i]];
    Small(a + WORD[i]);
    Small(b + a + WORD[i]);
  }

  lemma WordSums()
    ensures Reduced(Sums(1, 0), WORD) == Sums(920, 4582)
  {
    assert Reduced(Sums(1, 0), WORD[..0]) == Sums(1, 0);
    assert WORD[..9] == WORD;
    hide Reduced;
    WordPrefix(0, 1, 0);
    WordPrefix(1, 88, 88);
    WordPrefix(2, 193, 281);
    WordPrefix(3, 300, 581);
    WordPrefix(4, 405, 986);
    WordPrefix(5, 517, 1503);
    WordPrefix(6, 618, 2121);
    WordPrefix(7, 718, 2839);
    WordPrefix(8, 823, 3662);
  }

  /** The checksum of the word Wikipedia. */
  lemma KnownSum()
    ensures Checksum(1, WORD) == 0x11e6_0398
  {
    WordSums();
    hide Reduced, WORD;
  }

  lemma WrapSums()
    ensures Reduced(Sums(65520, 0), [1]) == Sums(0, 0) && Reduced(Sums(65520, 0), [0]) == Sums(65520, 65520)
  {
    assert Reduced(Sums(65520, 0), []) == Sums(65520, 0);
    assert [] + [1] == [1] && [] + [0] == [0];
    hide Reduced;
    ReducedOne(Sums(65520, 0), [], 1, Sums(65520, 0));
    ReducedOne(Sums(65520, 0), [], 0, Sums(65520, 0));
  }

  /** The sums go from 65520 to 0. */
  lemma KnownWrap()
    ensures Checksum(0xfff0, [1]) == 0 && Checksum(0xfff0, [0]) == 0xfff0_fff0
  {
    WrapSums();
    hide Reduced;
  }

  // ------------------------------------------------------- deferred modulo

  /** The sums as the unreduced additions would leave them. */
  function Plain(s: Sums, buf: seq<Byte>): Sums {
    if |buf| == 0 then s
    else
      var t := Plain(s, buf[..|buf| - 1]);
      var s1 := t.s1 + buf[|buf| - 1];
      Sums(s1, t.s2 + s1)
  }

  predicate Same(a: nat, b: nat) {
    a % BASE == b % BASE
  }

  /** Leaving the modulo out changes nothing modulo BASE. */
  lemma {:induction false} PlainCongruent(s: Sums, buf: seq<Byte>)
    ensures Same(Plain(s, buf).s1, Reduced(s, buf).s1) && Same(Plain(s, buf).s2, Reduced(s, buf).s2)
  {
    if |buf| == 0 {
    } else {
      hide Same;
      PlainCongruent(s, buf[..|buf| - 1]);
      SumsStep(Plain(s, buf[..|buf| - 1]), Reduced(s, buf[..|buf| - 1]), buf[|buf| - 1]);
    }
  }

  lemma SumsStep(t: Sums, r: Sums, x: nat)
    requires Same(t.s1, r.s1) && Same(t.s2, r.s2)
    ensures Same(t.s1 + x, (r.s1 + x) % BASE)
    ensures Same(t.s2 + (t.s1 + x), (r.s2 + (r.s1 + x) % BASE) % BASE)
  {
    SameRemainder(t.s1, r.s1, x);
    SameRemainder(t.s2, r.s2, t.s1 + x);
    SameRemainder(t.s1 + x, (r.s1 + x) % BASE, r.s2);
  }

  lemma AddMultiple(y: nat, q: int)
    requires y + q * BASE >= 0
    ensures (y + q * BASE) % BASE == y % BASE
  {
  }

  lemma SameRemainder(a: nat, b: nat, x: nat)
    requires a % BASE == b % BASE
    ensures (a + x) % BASE == (b + x) % BASE
  {
    var q := a / BASE - b / BASE;
    assert a + x == b + x + q * BASE;
    AddMultiple(b + x, q);
  }

  /** How large the unreduced sums get. */
  lemma {:induction false} PlainBound(s: Sums, buf: seq<Byte>)
    requires s.s1 < 65536 && s.s2 < 65536
    ensures var n := |buf|;
            Plain(s, buf).s1 <= 65535 + 255 * n
            && 2 * Plain(s, buf).s2 <= 2 * 65535 + 2 * 65535 * n + 255 * (n * (n + 1))
  {
    var n := |buf|;
    if n > 0 {
      PlainBound(s, buf[..n - 1]);
      assert n * (n + 1) == (n - 1) * n + 2 * n;
    }
  }

  /** With at most NMAX bytes neither sum leaves 32 bits. */
  lemma PlainFits(s: Sums, buf: seq<Byte>)
    requires s.s1 < 65536 && s.s2 < 65536 && |buf| <= NMAX
    ensures Plain(s, buf).s1 < 0x1_0000_0000 && Plain(s, buf).s2 < 0x1_0000_0000
  {
    PlainBound(s, buf);
    var n := |buf|;
    assert n * (n + 1) <= NMAX * (NMAX + 1) by {
      assert NMAX * (NMAX + 1) - n * (n + 1) == (NMAX - n) * (NMAX + n + 1);
    }
  }

  /** NMAX is the greatest number of bytes for which, from sums that have been
      reduced, the second sum is sure to fit. */
  lemma NmaxIs(n: nat)
    ensures n <= NMAX <==> 255 * (n * (n + 1)) / 2 + (n + 1) * (BASE - 1) < 0x1_0000_0000
  {
    if n <= NMAX {
      Grows(n, NMAX);
    } else {
      Grows(NMAX + 1, n);
    }
  }

  lemma Grows(n: nat, m: nat)
    requires n <= m
    ensures 255 * (n * (n + 1)) <= 255 * (m * (m + 1)) && (n + 1) * (BASE - 1) <= (m + 1) * (BASE - 1)
  {
    assert m * (m + 1) - n * (n + 1) == (m - n) * (m + n + 1);
  }

  lemma PlainPrefix(buf: seq<Byte>, i: nat)
    requires i < |buf|
    ensures buf[..i + 1] == buf[..i] + [buf[i]]
  {
  }

  /** DO1 */
  method Do1(ghost s0: Sums, s1: U32, s2: U32, buf: seq<Byte>, i: nat) returns (r1: U32, r2: U32)
    requires s0.s1 < 65536 && s0.s2 < 65536 && i < |buf| <= NMAX
    requires Sums(s1, s2) == Plain(s0, buf[..i])
    ensures Sums(r1, r2) == Plain(s0, buf[..i + 1])
  {
    PlainPrefix(buf, i);
    assert buf[..i + 1][..i] == buf[..i];
    PlainFits(s0, buf[..i + 1]);
    r1 := s1 + buf[i];
    r2 := s2 + r1;
  }

  /** DO16, as DO8 twice and so on. */
  method Do4(ghost s0: Sums, s1: U32, s2: U32, buf: seq<Byte>, i: nat) returns (r1: U32, r2: U32)
    requires s0.s1 < 65536 && s0.s2 < 65536 && i + 4 <= |buf| <= NMAX
    requires Sums(s1, s2) == Plain(s0, buf[..i])
    ensures Sums(r1, r2) == Plain(s0, buf[..i + 4])
  {
    r1, r2 := Do1(s0, s1, s2, buf, i);
    r1, r2 := Do1(s0, r1, r2, buf, i + 1);
    r1, r2 := Do1(s0, r1, r2, buf, i + 2);
    r1, r2 := Do1(s0, r1, r2, buf, i + 3);
  }

  method Do16(ghost s0: Sums, s1: U32, s2: U32, buf: seq<Byte>, i: nat) returns (r1: U32, r2: U32)
    requires s0.s1 < 65536 && s0.s2 < 65536 && i + 16 <= |buf| <= NMAX
    requires Sums(s1, s2) == Plain(s0, buf[..i])
    ensures Sums(r1, r2) == Plain(s0, buf[..i + 16])
  {
    r1, r2 := Do4(s0, s1, s2, buf, i);
    r1, r2 := Do4(s0, r1, r2, buf, i + 4);
    r1, r2 := Do4(s0, r1, r2, buf, i + 8);
    r1, r2 := Do4(s0, r1, r2, buf, i + 12);
  }

  lemma PlainNone(s: Sums)
    ensures Plain(s, []) == s
  {
  }

  /** One stretch of at most NMAX bytes, then the modulo. */
  method Stretch(s1: U32, s2: U32, buf: seq<Byte>) returns (r1: U32, r2: U32)
    requires s1 < 65536 && s2 < 65536 && 0 < |buf| <= NMAX
    ensures Sums(r1, r2) == Reduced(Sums(s1, s2), buf)
  {
    hide Plain, Reduced;
    r1, r2 := s1, s2;
    var k, i := |buf|, 0;
    PlainNone(Sums(s1, s2));
    assert buf[..0] == [];
    while k >= 16
      invariant 0 <= i && 0 <= k && i + k == |buf| && Sums(r1, r2) == Plain(Sums(s1, s2), buf[..i])
    {
      r1, r2 := Do16(Sums(s1, s2), r1, r2, buf, i);
      k, i := k - 16, i + 16;
    }
    while k != 0
      invariant 0 <= i && 0 <= k && i + k == |buf| && Sums(r1, r2) == Plain(Sums(s1, s2), buf[..i])
    {
      r1, r2 := Do1(Sums(s1, s2), r1, r2, buf, i);
      k, i := k - 1, i + 1;
    }
    assert buf[..i] == buf;
    PlainCongruent(Sums(s1, s2), buf);
    ReducedSmall(Sums(s1, s2), buf);
    r1, r2 := r1 % BASE, r2 % BASE;
  }

  /** adler32: the 32-bit sums never overflow, and the result is that of
      reducing after every byte; for a null buffer it is the initial value. */
  method Adler32(adler: U32, isNull: bool, buf: seq<Byte>) returns (r: U32)
    ensures r == if isNull then 1 else Checksum(adler, buf)
  {
    if isNull { return 1; }
    var s1: U32, s2: U32 := adler % 65536, adler / 65536 % 65536;
    var i := 0;
    ghost var start := Unpack(adler);
    assert buf[..0] == [];
    while i < |buf|
      invariant 0 <= i <= |buf| && Sums(s1, s2) == Reduced(start, buf[..i])
      invariant s1 < 65536 && s2 < 65536
    {
      var k := if |buf| - i < NMAX then |buf| - i else NMAX;
      ReducedAppend(start, buf[..i], buf[i..i + k]);
      assert buf[..i] + buf[i..i + k] == buf[..i + k];
      ReducedSmall(Sums(s1, s2), buf[i..i + k]);
      s1, s2 := Stretch(s1, s2, buf[i..i + k]);
      i := i + k;
    }
    assert buf[..i] == buf;
    r := s2 * 65536 + s1;
  }
}
