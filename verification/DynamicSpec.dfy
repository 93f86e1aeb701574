// The header of a dynamic block (RFC 1951, section 3.2.7): the code lengths of
// the block, themselves written in a Huffman code.
module DynamicSpec {
  import opened Words
  import opened Canonical
  import opened HuffmanTables
  import opened BitStream
  import opened InflateSpec

  /** The order in which the lengths of the code length code are written. */
  const BORDER: seq<nat> := [16, 17, 18, 0, 8, 7, 9, 6, 10, 5, 11, 4, 12, 3, 13, 2, 14, 1, 15]

  /** The place of each code length symbol in that order. */
  const RANK: seq<nat> := [3, 17, 15, 13, 11, 9, 7, 5, 4, 6, 8, 10, 12, 14, 16, 18, 0, 1, 2]

  lemma Ranked(i: nat)
    requires i < 19
    ensures |BORDER| == |RANK| == 19
    ensures BORDER[i] < 19 && RANK[BORDER[i]] == i && RANK[i] < 19 && BORDER[RANK[i]] == i
  {
    if i < 7 { } else if i < 13 { } else { }
  }

  /** The repetitions and 0 come first; then the lengths, from the middle outwards,
      so that the rarest ones may be left out (section 3.2.7). */
  lemma BorderIs(i: nat)
    requires i < 19
    ensures BORDER[i] == if i < 3 then 16 + i else if i == 3 then 0 else if i % 2 == 0 then 6 + i / 2 else 9 - i / 2
  {
    if i < 7 { } else if i < 13 { } else { }
  }

  // HLIT, HDIST and HCLEN with what the format adds to them.

  function LitCodes(t: nat): nat { 257 + t % 32 }

  function DistCodes(t: nat): nat { 1 + t / 32 % 32 }

  function BitCodes(t: nat): nat { 4 + t / 1024 }

  function TotalCodes(t: nat): nat { 258 + t % 32 + t / 32 % 32 }

  predicate SizesOK(t: nat) {
    t % 32 <= 29 && t / 32 % 32 <= 29
  }

  /** Five bits for the literal and length codes above 257, five for the distance
      codes above one, four for the code length codes above four; more codes than
      there are symbols are refused. */
  lemma TableParts(hlit: nat, hdist: nat, hclen: nat)
    requires hlit < 32 && hdist < 32 && hclen < 16
    ensures var t := hlit + 32 * hdist + 1024 * hclen;
            LitCodes(t) == hlit + 257 && DistCodes(t) == hdist + 1 && BitCodes(t) == hclen + 4
            && TotalCodes(t) == LitCodes(t) + DistCodes(t)
            && (SizesOK(t) <==> LitCodes(t) <= 286 && DistCodes(t) <= 30)
  {
    assert (hlit + 32 * hdist + 1024 * hclen) / 32 == hdist + 32 * hclen;
  }

  /** The lengths of the code length code, `n` of which are written. */
  function BitLengths(n: nat, str: nat): (r: seq<nat>)
    ensures |r| == 19
  {
    seq(19, (s: nat) => if s < |RANK| && RANK[s] < n then Low(3, Shr(3 * RANK[s], str)) else 0)
  }

  /** The lengths that huft_build and its callers take: those that fill the code
      space, and those of at most one bit that do not overfill it. */
  predicate Accepted(b: seq<nat>) {
    ValidLengths(b)
    && (Kraft(b) == Pow2(BMAX) || (Kraft(b) < Pow2(BMAX) && forall i :: 0 <= i < |b| ==> b[i] <= 1))
  }

  datatype LengthsRead =
    | Lengths(pos: nat, lens: seq<nat>)
    | Overrun  // more lengths than there are codes, or nothing to repeat
    | NoCode   // the bits are no code

  /** Extra bits of the code length symbols 16, 17 and 18. */
  function RepeatBits(sym: nat): nat {
    if sym == 16 then 2 else if sym == 17 then 3 else 7
  }

  function LeastRepeat(sym: nat): nat {
    if sym == 18 then 11 else 3
  }

  /** The length before is repeated 3 to 6 times, a zero 3 to 10 or 11 to 138
      times. */
  lemma RepeatRange(sym: nat, n: nat)
    requires 16 <= sym < 19
    ensures LeastRepeat(sym) <= n < LeastRepeat(sym) + Pow2(RepeatBits(sym))
            <==> if sym == 16 then 3 <= n <= 6 else if sym == 17 then 3 <= n <= 10 else 11 <= n <= 138
  {
    SmallPowers();
  }

  function Repeat(v: nat, n: nat): (r: seq<nat>)
    ensures |r| == n && forall i :: 0 <= i < n ==> r[i] == v
  {
    seq(n, (i: nat) => v)
  }

  predicate Short(lens: seq<nat>) {
    forall i :: 0 <= i < |lens| ==> lens[i] <= BMAX
  }

  /** What a code length symbol adds to the lengths read so far. */
  function AddLengths(sym: nat, extra: nat, total: nat, lens: seq<nat>): (r: LengthsRead)
    requires sym < 19 && Short(lens) && |lens| < total
    ensures r.Lengths? ==> |lens| < |r.lens| <= total && lens <= r.lens && Short(r.lens)
  {
    if sym < 16 then Lengths(0, lens + [sym])
    else
      var n := LeastRepeat(sym) + extra;
      if |lens| + n > total || (sym == 16 && lens == []) then Overrun
      else Lengths(RepeatBits(sym), lens + Repeat(if sym == 16 then lens[|lens| - 1] else 0, n))
  }

  /** One code length symbol; `bl` are the lengths of the code length code. */
  ghost function ReadOne(bl: seq<nat>, total: nat, input: seq<Byte>, pos: nat, lens: seq<nat>): (r: LengthsRead)
    requires |bl| == 19 && Short(lens) && |lens| < total
    ensures r.Lengths? ==> pos <= r.pos && |lens| < |r.lens| <= total && lens <= r.lens && Short(r.lens)
  {
    var sym := SymbolAt(bl, Bits(input, pos));
    if sym < 0 then NoCode
    else
      var after := pos + bl[sym];
      match AddLengths(sym, Low(RepeatBits(sym), Bits(input, after)), total, lens)
      case Lengths(used, lens') => Lengths(after + used, lens')
      case r => r
  }

  /** All lengths, up to `total`. */
  ghost function ReadLengths(bl: seq<nat>, total: nat, input: seq<Byte>, pos: nat, lens: seq<nat>): (r: LengthsRead)
    requires |bl| == 19 && Short(lens) && |lens| <= total
    ensures r.Lengths? ==> pos <= r.pos && |r.lens| == total && lens <= r.lens && Short(r.lens)
    decreases total - |lens|
  {
    if |lens| == total then Lengths(pos, lens)
    else
      match ReadOne(bl, total, input, pos, lens)
      case Lengths(pos', lens') => ReadLengths(bl, total, input, pos', lens')
      case r => r
  }

  datatype Preamble =
    | Preamble(codes: Codes, end: nat)
    | BadPreamble
    | Undecided  // the outcome depends on what no code says

  /** The header that starts at bit `pos`. */
  ghost function ReadPreamble(input: seq<Byte>, pos: nat): (r: Preamble)
    ensures r.Preamble? ==> ValidCodes(r.codes) && pos <= r.end
  {
    ReadSized(Low(14, Bits(input, pos)), input, pos)
  }

  /** The same, with the sizes read. */
  ghost function ReadSized(t: nat, input: seq<Byte>, pos: nat): (r: Preamble)
    ensures r.Preamble? ==> ValidCodes(r.codes) && pos <= r.end
  {
    var bl := BitLengths(BitCodes(t), Bits(input, pos + 14));
    if !SizesOK(t) || !Accepted(bl) then BadPreamble
    else
      match ReadLengths(bl, TotalCodes(t), input, pos + 14 + 3 * BitCodes(t), [])
      case NoCode => Undecided
      case Overrun => BadPreamble
      case Lengths(end, lens) =>
        var lit, dst := lens[..LitCodes(t)], lens[LitCodes(t)..];
        if Accepted(lit) && Accepted(dst) then Preamble(Codes(lit, dst), end) else BadPreamble
  }

  // ------------------------------------------------- complete codes leave no gap

  /** In a complete code every string starts with the code of some symbol. */
  lemma CompleteCovers(b: seq<nat>, str: nat)
    requires ValidLengths(b) && Kraft(b) == Pow2(BMAX)
    ensures SymbolAt(b, str) >= 0
  {
    hide Kraft, Pow2, Rev, LenFrom, LenOf, Beyond;
    var c := Counts(b);
    KraftAtMax(b, BMAX);
    LenFinds(c, BMAX, str);
    var k := LenOf(c, str);
    var r := Rev(k, str) - First(c, k);
    assert First(c, k) + c[k] == Beyond(c, k) by { LastStep(c, k); }
    var sym := SymbolOfRank(b, k, r);
    assert StartsWith(b, sym, str);
  }

  lemma LastStep(c: seq<nat>, k: nat)
    requires 0 < k < |c|
    ensures First(c, k) + c[k] == Beyond(c, k)
  {
  }

  lemma {:induction false} SymbolOfRank(b: seq<nat>, k: nat, r: nat) returns (sym: nat)
    requires r < Count(b, k)
    ensures sym < |b| && b[sym] == k && Count(b[..sym], k) == r
  {
    var n := |b| - 1;
    if b[n] == k && r == Count(b[..n], k) {
      sym := n;
    } else {
      sym := SymbolOfRank(b[..n], k, r);
      assert b[..n][..sym] == b[..sym];
    }
  }

  /** An incomplete code says nothing about a string of ones. */
  lemma OnesUncovered(b: seq<nat>)
    requires ValidLengths(b) && Kraft(b) < Pow2(BMAX)
    ensures SymbolAt(b, Pow2(BMAX) - 1) == -1
  {
    hide Kraft, Pow2, Rev, Beyond, First;
    var c, str := Counts(b), Pow2(BMAX) - 1;
    KraftAtMax(b, BMAX);
    var sym := SymbolAt(b, str);
    if sym >= 0 {
      var k := b[sym];
      RankBelow(b, sym);
      LastStep(c, k);
      RevOnes(k, BMAX);
      BeyondGrows(c, k, BMAX);
      Pow2Add(k, BMAX - k);
      MulMono(Pow2(k), Beyond(c, k), Pow2(BMAX - k));
    }
  }

  lemma {:induction false} RevOnes(k: nat, n: nat)
    requires k <= n
    ensures Rev(k, Pow2(n) - 1) == Pow2(k) - 1
  {
    if k > 0 { RevOnes(k - 1, n - 1); }
  }

  /** Of the code lengths that are not over-subscribed exactly the complete ones
      decide every string. */
  lemma CoversIffComplete(b: seq<nat>)
    requires ValidLengths(b) && Kraft(b) <= Pow2(BMAX)
    ensures (forall str: nat :: SymbolAt(b, str) >= 0) <==> Kraft(b) == Pow2(BMAX)
  {
    if Kraft(b) == Pow2(BMAX) {
      forall str: nat ensures SymbolAt(b, str) >= 0 { CompleteCovers(b, str); }
    } else {
      OnesUncovered(b);
    }
  }

  /** A complete code length code decides every header. */
  lemma {:induction false} CompleteReads(bl: seq<nat>, total: nat, input: seq<Byte>, pos: nat, lens: seq<nat>)
    requires |bl| == 19 && Short(lens) && |lens| <= total && ValidLengths(bl) && Kraft(bl) == Pow2(BMAX)
    ensures ReadLengths(bl, total, input, pos, lens) != NoCode
    decreases total - |lens|
  {
    if |lens| < total {
      CompleteCovers(bl, Bits(input, pos));
      var r := ReadOne(bl, total, input, pos, lens);
      if r.Lengths? { CompleteReads(bl, total, input, r.pos, r.lens); }
    }
  }

  /** A header without any code length code is accepted, but says nothing: the
      program looks its first code length up in a table it has not built. */
  lemma EmptyCodeUndecided(input: seq<Byte>, pos: nat)
    requires var t := Low(14, Bits(input, pos));
             SizesOK(t) && AllZero(BitLengths(BitCodes(t), Bits(input, pos + 14)))
    ensures ReadPreamble(input, pos) == Undecided
  {
    hide Low, Shr, Bits, BitLengths;
    var t := Low(14, Bits(input, pos));
    KraftOfNone(BitLengths(BitCodes(t), Bits(input, pos + 14)));
  }
}
