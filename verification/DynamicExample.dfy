// A dynamic block byte by byte: every symbol of the code length code that
// repeats a length is used once at least.
module DynamicExample {
  import opened Words
  import opened Canonical
  import opened HuffmanTables
  import opened BitStream
  import opened InflateSpec
  import opened DynamicSpec
  import opened BlocksSpec
  import opened InflateComplete
  import opened FixedTables
  import opened DeflateFormat
  import opened Deflate
  import opened DeflateExamples

  // ------------------------------------------------------------- the codes

  /** Three bits for the letters a to g and for the end of the block. */
  function Letters(): (r: seq<nat>)
    ensures |r| == 257
    ensures forall i :: 0 <= i < 257 ==> r[i] == if 97 <= i < 104 || i == 256 then 3 else 0
  {
    seq(257, (i: nat) => if 97 <= i < 104 || i == 256 then 3 else 0)
  }

  /** The code of the code lengths 1 and 3 and of the repetitions. */
  const BITS: seq<nat> := [0, 3, 0, 2, 0, 0, 0, 0, 0, 0, 0, 0, 0, 0, 0, 0, 3, 2, 2]

  const RUNS: seq<LengthRun> :=
    [LengthRun(18, 86), LengthRun(3, 0), LengthRun(16, 3), LengthRun(18, 127), LengthRun(17, 7), LengthRun(17, 1),
     LengthRun(3, 0), LengthRun(1, 0)]

  function LettersPlan(): Plan {
    Plan(Codes(Letters(), [1]), BITS, 18, RUNS)
  }

  lemma LetterCounts(k: nat)
    ensures Count(Letters()[..97], k) == if k == 0 then 97 else 0
    ensures Count(Letters()[..98], k) == if k == 0 then 97 else if k == 3 then 1 else 0
    ensures Count(Letters()[..256], k) == if k == 0 then 249 else if k == 3 then 7 else 0
    ensures Count(Letters(), k) == if k == 0 then 249 else if k == 3 then 8 else 0
  {
    var b := Letters();
    assert b[..0] == [] && b[..257] == b;
    CountRun(b, 0, 97, 0, k);
    CountRun(b, 97, 98, 3, k);
    CountRun(b, 97, 104, 3, k);
    CountRun(b, 104, 256, 0, k);
    CountRun(b, 256, 257, 3, k);
  }

  lemma BeyondStep(c: seq<nat>, k: nat)
    requires 0 < k < |c|
    ensures Beyond(c, k) == 2 * Beyond(c, k - 1) + c[k] && First(c, k) == 2 * Beyond(c, k - 1) && Beyond(c, 0) == 0
  {
  }

  lemma LetterCode()
    ensures Accepted(Letters()) && Kraft(Letters()) == Pow2(BMAX)
    ensures CodeField(Letters(), 97) == Field(0, 3) && CodeField(Letters(), 98) == Field(4, 3)
            && CodeField(Letters(), 256) == Field(7, 3)
  {
    var b := Letters();
    var c := Counts(b);
    forall k: nat ensures Count(b, k) == if k == 0 then 249 else if k == 3 then 8 else 0 { LetterCounts(k); }
    LetterCounts(3);
    hide Count, Letters, Kraft;
    BeyondStep(c, 1);
    BeyondStep(c, 2);
    BeyondStep(c, 3);
    hide Beyond, First;
    KraftAtMax(b, 3);
    SmallPowers();
    hide Pow2;
    assert Code(b, 97) == 0 && Code(b, 98) == 1 && Code(b, 256) == 7;
    ThreeBits();
  }

  lemma ThreeBits()
    ensures Rev(3, 0) == 0 && Rev(3, 1) == 4 && Rev(3, 7) == 7 && Rev(3, 6) == 3
    ensures Rev(2, 0) == 0 && Rev(2, 1) == 2 && Rev(2, 2) == 1
  {
  }

  lemma BitsCounts(n: nat, k: nat)
    requires n <= 19
    ensures Count(BITS[..n], k) ==
            if k == 2 then (if n <= 3 then 0 else if n <= 17 then 1 else n - 16)
            else if k == 3 then (if n <= 1 then 0 else if n <= 16 then 1 else 2)
            else if k == 0 then n - (if n <= 1 then 0 else if n <= 3 then 1 else if n <= 16 then 2 else n - 14)
            else 0
  {
    var b := BITS;
    assert b[..0] == [];
    CountRun(b, 0, if n < 1 then n else 1, 0, k);
    if n > 1 { CountRun(b, 1, 2, 3, k); CountRun(b, 2, if n < 3 then n else 3, 0, k); }
    if n > 3 { CountRun(b, 3, 4, 2, k); CountRun(b, 4, if n < 16 then n else 16, 0, k); }
    if n > 16 { CountRun(b, 16, 17, 3, k); CountRun(b, 17, n, 2, k); }
  }

  lemma BitsTotals()
    ensures forall k: nat :: Count(BITS, k) == if k == 0 then 14 else if k == 2 then 3 else if k == 3 then 2 else 0
    ensures First(Counts(BITS), 2) == 0 && First(Counts(BITS), 3) == 6 && Accepted(BITS)
  {
    var b := BITS;
    var c := Counts(b);
    assert b[..19] == b;
    forall k: nat ensures Count(b, k) == if k == 0 then 14 else if k == 2 then 3 else if k == 3 then 2 else 0 {
      BitsCounts(19, k);
    }
    hide Count, Kraft;
    BeyondStep(c, 1);
    BeyondStep(c, 2);
    BeyondStep(c, 3);
    hide Beyond, First;
    KraftAtMax(b, 3);
    SmallPowers();
  }

  lemma BitsOK()
    ensures BitCodeOK(BITS, 18)
  {
    BitsTotals();
    hide Accepted, Count, Counts, First;
  }

  lemma BitsCode()
    ensures CodeField(BITS, 3) == Field(0, 2) && CodeField(BITS, 17) == Field(2, 2)
            && CodeField(BITS, 18) == Field(1, 2)
    ensures CodeField(BITS, 1) == Field(3, 3) && CodeField(BITS, 16) == Field(7, 3)
  {
    BitsTotals();
    BitsCounts(3, 2);
    BitsCounts(17, 2);
    BitsCounts(18, 2);
    BitsCounts(1, 3);
    BitsCounts(16, 3);
    ThreeBits();
    hide Count, Counts, First, Rev, Accepted;
  }

  // ---------------------------------------------------- the lengths, run by run

  lemma LastRun(total: nat, all: seq<nat>)
    requires |all| == total
    ensures Spells([], total, all, all)
  {
  }

  /** A run takes the lengths from the first `a` to the first `b`. */
  lemma RunAdds(run: LengthRun, all: seq<nat>, a: nat, b: nat)
    requires a < b <= |all| && Short(all) && run.sym < 19
    requires if run.sym < 16 then b == a + 1 && all[a] == run.sym
             else b == a + LeastRepeat(run.sym) + run.extra && (run.sym == 16 ==> a > 0)
                  && forall i :: a <= i < b ==> all[i] == if run.sym == 16 then all[a - 1] else 0
    ensures var r := AddLengths(run.sym, run.extra, |all|, all[..a]); r.Lengths? && r.lens == all[..b]
  {
    var lens := all[..a];
    if run.sym < 16 {
      assert lens + [run.sym] == all[..b];
    } else {
      var n := LeastRepeat(run.sym) + run.extra;
      assert lens + Repeat(if run.sym == 16 then lens[|lens| - 1] else 0, n) == all[..b];
    }
  }

  lemma RunStep(run: LengthRun, runs: seq<LengthRun>, all: seq<nat>, a: nat, b: nat)
    requires a < b <= |all| && Short(all) && run.sym < 19 && Spells(runs, |all|, all[..b], all)
    requires var r := AddLengths(run.sym, run.extra, |all|, all[..a]); r.Lengths? && r.lens == all[..b]
    ensures Spells([run] + runs, |all|, all[..a], all)
  {
    hide AddLengths;
    assert ([run] + runs)[1..] == runs;
  }

  lemma RunFrom(i: nat, all: seq<nat>, a: nat, b: nat)
    requires i < 8 && a < b <= |all| && Short(all) && Spells(RUNS[i + 1..], |all|, all[..b], all)
    requires if RUNS[i].sym < 16 then b == a + 1 && all[a] == RUNS[i].sym
             else RUNS[i].sym < 19 && b == a + LeastRepeat(RUNS[i].sym) + RUNS[i].extra && (RUNS[i].sym == 16 ==> a > 0)
                  && forall j :: a <= j < b ==> all[j] == if RUNS[i].sym == 16 then all[a - 1] else 0
    ensures Spells(RUNS[i..], |all|, all[..a], all)
  {
    hide Spells;
    assert RUNS[i..] == [RUNS[i]] + RUNS[i + 1..];
    RunAdds(RUNS[i], all, a, b);
    RunStep(RUNS[i], RUNS[i + 1..], all, a, b);
  }

  predicate AllLetters(all: seq<nat>) {
    |all| == 258 && forall i :: 0 <= i < 258 ==>
        all[i] == if 97 <= i < 104 || i == 256 then 3 else if i == 257 then 1 else 0
  }

  lemma LaterRuns(all: seq<nat>)
    requires AllLetters(all) && Spells(RUNS[8..], 258, all[..258], all)
    ensures Spells(RUNS[4..], 258, all[..242], all)
  {
    hide Spells;
    RunFrom(7, all, 257, 258);
    RunFrom(6, all, 256, 257);
    RunFrom(5, all, 252, 256);
    RunFrom(4, all, 242, 252);
  }

  lemma EarlierRuns(all: seq<nat>)
    requires AllLetters(all) && Spells(RUNS[4..], 258, all[..242], all)
    ensures Spells(RUNS[0..], 258, all[..0], all)
  {
    hide Spells;
    RunFrom(3, all, 104, 242);
    RunFrom(2, all, 98, 104);
    RunFrom(1, all, 97, 98);
    RunFrom(0, all, 0, 97);
  }

  lemma LettersSpelt()
    ensures Spells(RUNS, 258, [], Letters() + [1])
  {
    var all := Letters() + [1];
    assert AllLetters(all);
    hide Letters, Spells, AllLetters;
    assert all[..0] == [] && all[..258] == all && RUNS[8..] == [] && RUNS[0..] == RUNS;
    LastRun(258, all);
    LaterRuns(all);
    EarlierRuns(all);
  }

  // ------------------------------------------------------------ the bit fields

  const HEADER: seq<Field> :=
    [Field(3, 3), Field(2, 3), Field(2, 3), Field(0, 3), Field(0, 3), Field(0, 3), Field(0, 3), Field(0, 3),
     Field(0, 3), Field(0, 3), Field(0, 3), Field(0, 3), Field(0, 3), Field(2, 3), Field(0, 3), Field(0, 3),
     Field(0, 3), Field(3, 3)]

  const SYMBOLS: seq<Field> :=
    [Field(1, 2), Field(86, 7), Field(0, 2), Field(7, 3), Field(3, 2), Field(1, 2), Field(127, 7), Field(2, 2),
     Field(7, 3), Field(2, 2), Field(1, 3), Field(0, 2), Field(3, 3)]

  lemma {:induction false} BitFieldAt(bl: seq<nat>, n: nat, i: nat, j: nat)
    requires |bl| == 19 && i <= j < n <= 19 && forall s :: 0 <= s < 19 ==> bl[s] <= 7
    ensures BORDER[j] < 19 && BitFields(bl, n, i)[j - i] == Field(bl[BORDER[j]], 3)
    decreases n - i
  {
    Ranked(j);
    Ranked(i);
    hide BORDER, RANK;
    if i < j { BitFieldAt(bl, n, i + 1, j); }
  }

  lemma HeaderAt(j: nat)
    requires j < 18
    ensures BORDER[j] < 19 && HEADER[j] == Field(BITS[BORDER[j]], 3)
  {
    if j < 6 { } else if j < 12 { } else { }
  }

  lemma FieldsAre(bl: seq<nat>, fs: seq<Field>)
    requires |bl| == 19 && |fs| == 18 && forall s :: 0 <= s < 19 ==> bl[s] <= 7
    requires forall j :: 0 <= j < 18 ==> BORDER[j] < 19 && fs[j] == Field(bl[BORDER[j]], 3)
    ensures BitFields(bl, 18, 0) == fs
  {
    hide BORDER, BitFields;
    forall j | 0 <= j < 18 ensures BitFields(bl, 18, 0)[j] == fs[j] { BitFieldAt(bl, 18, 0, j); }
  }

  lemma HeaderFields()
    requires BitCodeOK(BITS, 18)
    ensures BitFields(BITS, 18, 0) == HEADER
  {
    assert |HEADER| == 18;
    forall j | 0 <= j < 18 ensures BORDER[j] < 19 && HEADER[j] == Field(BITS[BORDER[j]], 3) { HeaderAt(j); }
    hide Accepted, BITS, HEADER, BORDER, BitFields;
    FieldsAre(BITS, HEADER);
  }

  lemma RunsApart(bl: seq<nat>, r: LengthRun, runs: seq<LengthRun>)
    requires |bl| == 19 && RunOK(bl, r) && forall i :: 0 <= i < |runs| ==> RunOK(bl, runs[i])
    ensures RunsFields(bl, [r] + runs) == RunFields(bl, r) + RunsFields(bl, runs)
  {
    hide RunOK, RunFields;
    assert ([r] + runs)[1..] == runs;
  }

  lemma RunsOK()
    ensures forall i :: 0 <= i < 8 ==> RunOK(BITS, RUNS[i])
  {
    SmallPowers();
    hide Pow2;
    forall i | 0 <= i < 8 ensures RunOK(BITS, RUNS[i]) { }
  }

  /** The fields of run `i` are those from place `a` to place `b`. */
  lemma SymbolStep(bl: seq<nat>, runs: seq<LengthRun>, fs: seq<Field>, i: nat, a: nat, b: nat)
    requires |bl| == 19 && i < |runs| && forall j :: 0 <= j < |runs| ==> RunOK(bl, runs[j])
    requires a <= b <= |fs| && RunFields(bl, runs[i]) == fs[a..b] && RunsFields(bl, runs[i + 1..]) == fs[b..]
    ensures RunsFields(bl, runs[i..]) == fs[a..]
  {
    hide RunFields, RunOK;
    assert runs[i..] == [runs[i]] + runs[i + 1..];
    assert fs[a..b] + fs[b..] == fs[a..];
    RunsApart(bl, runs[i], runs[i + 1..]);
  }

  lemma EachRun()
    requires forall i :: 0 <= i < 8 ==> RunOK(BITS, RUNS[i])
    ensures RunFields(BITS, RUNS[0]) == SYMBOLS[0..2] && RunFields(BITS, RUNS[1]) == SYMBOLS[2..3]
    ensures RunFields(BITS, RUNS[2]) == SYMBOLS[3..5] && RunFields(BITS, RUNS[3]) == SYMBOLS[5..7]
    ensures RunFields(BITS, RUNS[4]) == SYMBOLS[7..9] && RunFields(BITS, RUNS[5]) == SYMBOLS[9..11]
    ensures RunFields(BITS, RUNS[6]) == SYMBOLS[11..12] && RunFields(BITS, RUNS[7]) == SYMBOLS[12..13]
  {
    BitsCode();
    EachLaterRun();
    assert |BITS| == 19;
    hide RunOK, CodeField, BITS;
  }

  lemma EachLaterRun()
    requires forall i :: 0 <= i < 8 ==> RunOK(BITS, RUNS[i])
    ensures RunFields(BITS, RUNS[4]) == SYMBOLS[7..9] && RunFields(BITS, RUNS[5]) == SYMBOLS[9..11]
    ensures RunFields(BITS, RUNS[6]) == SYMBOLS[11..12] && RunFields(BITS, RUNS[7]) == SYMBOLS[12..13]
  {
    BitsCode();
    assert |BITS| == 19;
    hide RunOK, CodeField, BITS;
  }

  lemma LaterSymbols()
    requires forall i :: 0 <= i < 8 ==> RunOK(BITS, RUNS[i])
    ensures RunsFields(BITS, RUNS[4..]) == SYMBOLS[7..]
  {
    EachRun();
    assert |RUNS| == 8 && |BITS| == 19 && |SYMBOLS| == 13;
    assert RUNS[8..] == [] && SYMBOLS[13..] == [];
    hide BITS, RUNS, SYMBOLS, RunFields, RunOK;
    SymbolStep(BITS, RUNS, SYMBOLS, 7, 12, 13);
    SymbolStep(BITS, RUNS, SYMBOLS, 6, 11, 12);
    SymbolStep(BITS, RUNS, SYMBOLS, 5, 9, 11);
    SymbolStep(BITS, RUNS, SYMBOLS, 4, 7, 9);
  }

  lemma SymbolFields()
    requires forall i :: 0 <= i < 8 ==> RunOK(BITS, RUNS[i])
    ensures RunsFields(BITS, RUNS) == SYMBOLS
  {
    EachRun();
    LaterSymbols();
    assert |RUNS| == 8 && |BITS| == 19 && |SYMBOLS| == 13;
    assert RUNS[0..] == RUNS && SYMBOLS[0..] == SYMBOLS;
    hide BITS, RUNS, SYMBOLS, RunFields, RunOK;
    SymbolStep(BITS, RUNS, SYMBOLS, 3, 5, 7);
    SymbolStep(BITS, RUNS, SYMBOLS, 2, 3, 5);
    SymbolStep(BITS, RUNS, SYMBOLS, 1, 2, 3);
    SymbolStep(BITS, RUNS, SYMBOLS, 0, 0, 2);
  }

  /** The letters a and b. */
  function AbTokens(): seq<Token> {
    [ByteToken(0x61), ByteToken(0x62)]
  }

  // ------------------------------------------------------------ the whole stream

  lemma LettersOK()
    ensures PlanOK(LettersPlan()) && PieceOK(DynamicPiece(LettersPlan(), AbTokens()))
    ensures TokensOK(LettersPlan().codes, []) && TokensOK(LettersPlan().codes, AbTokens()[1..])
  {
    LetterCode();
    BitsOK();
    LettersSpelt();
    RunsOK();
    OneDistance();
    hide CodeField, BitCodeOK, RunOK, Spells, BITS, Kraft, Pow2, Letters, Accepted;
    AcceptedEncodes(Letters());
    AcceptedEncodes([1]);
    AcceptedValid(Letters());
    AcceptedValid([1]);
    assert AbTokens()[1..] == [AbTokens()[1]];
  }

  lemma AcceptedValid(b: seq<nat>)
    requires Accepted(b)
    ensures ValidLengths(b)
  {
  }

  lemma OneDistance()
    ensures Accepted([1])
  {
    assert Kraft([]) == 0 && [1][..0] == [];
    assert Kraft([1]) == Weight(1);
    Pow2Mono(14, 15);
    PowerFifteen();
  }

  lemma BodyIs(c: Codes)
    requires |c.lit| > 256 && TokensOK(c, AbTokens()) && TokensOK(c, AbTokens()[1..]) && TokensOK(c, [])
    ensures BodyFields(c, AbTokens()) == [CodeField(c.lit, 97), CodeField(c.lit, 98), CodeField(c.lit, 256)]
  {
    hide TokensOK, CodeField;
    var ts := AbTokens();
    assert ts[1..] == [ts[1]] && ts[1..][1..] == [];
    assert BodyFields(c, []) == [CodeField(c.lit, 256)];
  }

  lemma LettersHeader()
    requires PlanOK(LettersPlan())
    ensures PlanFields(LettersPlan()) == [Field(14336, 14)] + HEADER + SYMBOLS
  {
    BitsOK();
    RunsOK();
    HeaderFields();
    SymbolFields();
    hide PlanOK, HEADER, SYMBOLS, RUNS, BITS, Letters, BitFields, RunsFields, RunOK, Accepted;
    assert TableOf(LettersPlan()) == 14336;
  }

  lemma DynamicFields(plan: Plan, ts: seq<Token>)
    requires PieceOK(DynamicPiece(plan, ts))
    ensures PieceFields(DynamicPiece(plan, ts), true,
            0) == [Field(5, 3)] + (PlanFields(plan) + BodyFields(plan.codes, ts))
  {
    hide PlanOK, TokensOK, PlanFields, BodyFields;
  }

  lemma Regroup(f: Field, g: Field, a: seq<Field>, b: seq<Field>, c: seq<Field>)
    ensures [f] + ([g] + a + b + c) == [f, g] + a + b + c
  {
  }

  lemma LettersFields()
    requires PieceOK(DynamicPiece(LettersPlan(), AbTokens()))
    ensures PieceFields(DynamicPiece(LettersPlan(), AbTokens()), true, 0)
            == [Field(5, 3), Field(14336, 14)] + HEADER + SYMBOLS + [Field(0, 3), Field(4, 3), Field(7, 3)]
  {
    LettersOK();
    LetterCode();
    LettersHeader();
    var codes := LettersPlan().codes;
    assert codes.lit == Letters() && |Letters()| == 257;
    BodyIs(codes);
    hide PieceOK, PlanOK, TokensOK, CodeField, HEADER, SYMBOLS, Letters, LettersPlan, PlanFields, BodyFields, Accepted,
         AbTokens, PieceFields;
    DynamicFields(LettersPlan(), AbTokens());
    Regroup(Field(5, 3), Field(14336, 14), HEADER, SYMBOLS, [Field(0, 3), Field(4, 3), Field(7, 3)]);
  }

  lemma PackAt(fs: seq<Field>, i: nat, rest: nat)
    requires i < |fs|
    ensures Pack(fs[i..], rest) == fs[i].v + Pack(fs[i + 1..], rest) * Pow2(fs[i].k)
  {
    assert fs[i..][1..] == fs[i + 1..];
  }

  lemma PackThree(fs: seq<Field>, i: nat, rest: nat)
    requires i < |fs| && fs[i].k == 3
    ensures Pack(fs[i..], rest) == fs[i].v + 8 * Pack(fs[i + 1..], rest)
  {
    PackAt(fs, i, rest);
    SmallPowers();
  }

  lemma PackEnd(fs: seq<Field>, rest: nat)
    ensures Pack(fs[|fs|..], rest) == rest
  {
  }

  lemma LaterSymbolsPacked()
    ensures Pack(SYMBOLS[6..], 480) == 2014867327
  {
    PackEnd(SYMBOLS, 480);
    SmallPowers();
    hide Pow2, Pack;
    PackAt(SYMBOLS, 12, 480);
    PackAt(SYMBOLS, 11, 480);
    PackAt(SYMBOLS, 10, 480);
    PackAt(SYMBOLS, 9, 480);
    PackAt(SYMBOLS, 8, 480);
    PackAt(SYMBOLS, 7, 480);
    PackAt(SYMBOLS, 6, 480);
  }

  lemma SymbolsPacked()
    requires Pack(SYMBOLS[6..], 480) == 2014867327
    ensures Pack(SYMBOLS[0..], 480) == 528185380698457
  {
    SmallPowers();
    hide Pow2, Pack;
    PackAt(SYMBOLS, 5, 480);
    PackAt(SYMBOLS, 4, 480);
    PackAt(SYMBOLS, 3, 480);
    PackAt(SYMBOLS, 2, 480);
    PackAt(SYMBOLS, 1, 480);
    PackAt(SYMBOLS, 0, 480);
  }

  lemma HeaderPackedLast()
    ensures Pack(HEADER[12..], 528185380698457) == 138460628437816410128
  {
    PackEnd(HEADER, 528185380698457);
    hide Pack;
    PackThree(HEADER, 17, 528185380698457);
    PackThree(HEADER, 16, 528185380698457);
    PackThree(HEADER, 15, 528185380698457);
    PackThree(HEADER, 14, 528185380698457);
    PackThree(HEADER, 13, 528185380698457);
    PackThree(HEADER, 12, 528185380698457);
  }

  lemma HeaderPackedMiddle()
    requires Pack(HEADER[12..], 528185380698457) == 138460628437816410128
    ensures Pack(HEADER[6..], 528185380698457) == 36296622981202945016594432
  {
    hide Pack;
    PackThree(HEADER, 11, 528185380698457);
    PackThree(HEADER, 10, 528185380698457);
    PackThree(HEADER, 9, 528185380698457);
    PackThree(HEADER, 8, 528185380698457);
    PackThree(HEADER, 7, 528185380698457);
    PackThree(HEADER, 6, 528185380698457);
  }

  lemma HeaderPackedFirst()
    requires Pack(HEADER[6..], 528185380698457) == 36296622981202945016594432
    ensures Pack(HEADER[0..], 528185380698457) == 9514941934784464818430130782355
  {
    hide Pack;
    PackThree(HEADER, 5, 528185380698457);
    PackThree(HEADER, 4, 528185380698457);
    PackThree(HEADER, 3, 528185380698457);
    PackThree(HEADER, 2, 528185380698457);
    PackThree(HEADER, 1, 528185380698457);
    PackThree(HEADER, 0, 528185380698457);
  }

  lemma EndsPacked()
    ensures Pack([Field(0, 3), Field(4, 3), Field(7, 3)], 0) == 480
    ensures Pack([Field(5, 3), Field(14336, 14)],
            9514941934784464818430130782355) == 1247142469276069372681274101904949253
  {
    var a, d := [Field(5, 3), Field(14336, 14)], [Field(0, 3), Field(4, 3), Field(7, 3)];
    assert a[0..] == a && d[0..] == d;
    Pow14();
    hide Pack, Pow2;
    PackEnd(d, 0);
    PackThree(d, 2, 0);
    PackThree(d, 1, 0);
    PackThree(d, 0, 0);
    PackEnd(a, 9514941934784464818430130782355);
    PackAt(a, 1, 9514941934784464818430130782355);
    PackThree(a, 0, 9514941934784464818430130782355);
  }

  lemma LettersPacked()
    ensures Pack([Field(5, 3), Field(14336, 14)] + HEADER + SYMBOLS + [Field(0, 3), Field(4, 3), Field(7, 3)], 0) ==
            1247142469276069372681274101904949253
  {
    LaterSymbolsPacked();
    SymbolsPacked();
    HeaderPackedLast();
    HeaderPackedMiddle();
    HeaderPackedFirst();
    EndsPacked();
    assert SYMBOLS[0..] == SYMBOLS && HEADER[0..] == HEADER;
    hide Pack, HEADER, SYMBOLS;
    var a, d := [Field(5, 3), Field(14336, 14)], [Field(0, 3), Field(4, 3), Field(7, 3)];
    PackAppend(a + HEADER + SYMBOLS, d, 0);
    PackAppend(a + HEADER, SYMBOLS, 480);
    PackAppend(a, HEADER, 528185380698457);
  }

  lemma Pow14()
    ensures Pow2(14) == 16384
  {
    PowerFifteen();
  }

  const LETTERS_STREAM: seq<Byte> :=
    [0x05, 0xC0, 0x27, 0x01, 0x00, 0x00, 0x00, 0x02, 0xB0, 0xAC, 0xFC, 0xFE, 0xDE, 0x30, 0xF0]

  lemma StreamNumber()
    ensures Number(LETTERS_STREAM) == 1247142469276069372681274101904949253
  {
    var s := LETTERS_STREAM;
    hide Number;
    NumberNone();
    assert [0xF0] + [] == [0xF0];
    NumberStep(0xF0, []);
    NumberStep(0x30, [0xF0]);
    assert [0x30] + [0xF0] == [0x30, 0xF0];
    NumberStep(0xDE, [0x30, 0xF0]);
    assert [0xDE] + [0x30, 0xF0] == s[12..];
    NumberFour(s[8], s[9], s[10], s[11], s[12..]);
    NumberFour(s[4], s[5], s[6], s[7], s[8..]);
    NumberFour(s[0], s[1], s[2], s[3], s[4..]);
    assert s[8..] == [s[8], s[9], s[10], s[11]] + s[12..];
    assert s[4..] == [s[4], s[5], s[6], s[7]] + s[8..];
    assert s == [s[0], s[1], s[2], s[3]] + s[4..];
  }

  lemma AbOutput(hist: seq<Byte>)
    ensures PieceOutput(DynamicPiece(LettersPlan(), AbTokens()), hist) == hist + [0x61, 0x62]
  {
    hide LettersPlan;
    PlayTwo(ByteToken(0x61), ByteToken(0x62), hist);
  }

  lemma WidthAt(fs: seq<Field>, i: nat)
    requires i < |fs|
    ensures Width(fs[i..]) == fs[i].k + Width(fs[i + 1..])
  {
    assert fs[i..][1..] == fs[i + 1..];
  }

  lemma {:induction false} WidthUpTo(fs: seq<Field>, i: nat, k: nat)
    requires i <= |fs| && forall j :: i <= j < |fs| ==> fs[j].k == k
    ensures Width(fs[i..]) == k * (|fs| - i)
    decreases |fs| - i
  {
    if i < |fs| {
      WidthAt(fs, i);
      WidthUpTo(fs, i + 1, k);
      assert k * (|fs| - i) == k + k * (|fs| - (i + 1));
    } else {
      assert fs[i..] == [];
    }
  }

  lemma PartWidths()
    ensures Width(HEADER) == 54 && Width(SYMBOLS) == 40
    ensures Width([Field(5, 3), Field(14336, 14)]) == 17 && Width([Field(0, 3), Field(4, 3), Field(7, 3)]) == 9
  {
    SymbolsWidth();
    HeaderWidth();
    EndsWidth([Field(5, 3)], Field(14336, 14));
    EndsWidth([Field(0, 3), Field(4, 3)], Field(7, 3));
    EndsWidth([Field(0, 3)], Field(4, 3));
    assert SYMBOLS[0..] == SYMBOLS;
  }

  lemma EndsWidth(fs: seq<Field>, f: Field)
    ensures Width(fs + [f]) == Width(fs) + f.k
  {
    PackAppend(fs, [f], 0);
    assert [f][1..] == [];
  }

  lemma HeaderWidth()
    ensures Width(HEADER) == 54
  {
    hide Width;
    WidthUpTo(HEADER, 0, 3);
    assert HEADER[0..] == HEADER;
  }

  lemma SymbolsWidth()
    ensures Width(SYMBOLS[0..]) == 40
  {
    assert SYMBOLS[13..] == [] && Width([]) == 0;
    hide Width;
    WidthAt(SYMBOLS, 12);
    WidthAt(SYMBOLS, 11);
    WidthAt(SYMBOLS, 10);
    WidthAt(SYMBOLS, 9);
    WidthAt(SYMBOLS, 8);
    WidthAt(SYMBOLS, 7);
    WidthAt(SYMBOLS, 6);
    WidthAt(SYMBOLS, 5);
    WidthAt(SYMBOLS, 4);
    WidthAt(SYMBOLS, 3);
    WidthAt(SYMBOLS, 2);
    WidthAt(SYMBOLS, 1);
    WidthAt(SYMBOLS, 0);
  }

  lemma LettersEnd()
    requires PieceOK(DynamicPiece(LettersPlan(), AbTokens()))
    ensures PieceEnd(DynamicPiece(LettersPlan(), AbTokens()), 0) == 120
  {
    hide PieceOK, HEADER, SYMBOLS, Width, LettersPlan, AbTokens, PieceFields, PieceEnd;
    LettersFields();
    PartWidths();
    var a, d := [Field(5, 3), Field(14336, 14)], [Field(0, 3), Field(4, 3), Field(7, 3)];
    PackAppend(a + HEADER + SYMBOLS, d, 0);
    PackAppend(a + HEADER, SYMBOLS, 0);
    PackAppend(a, HEADER, 0);
    EndIs(DynamicPiece(LettersPlan(), AbTokens()), a + HEADER + SYMBOLS + d);
  }

  /** Fifteen bytes that are the letters a and b. */
  lemma TwoLetters(hist: seq<Byte>)
    ensures EndsIn(LETTERS_STREAM, Origin(hist), Stream(Finished, true, 120, hist + [0x61, 0x62]))
  {
    hide PieceOK, PieceFields, Pack, Number, ComesTo, LettersPlan, AbTokens, LETTERS_STREAM, PieceEnd, HEADER, SYMBOLS;
    var p := DynamicPiece(LettersPlan(), AbTokens());
    LettersOK();
    LettersFields();
    LettersPacked();
    LettersEnd();
    StreamNumber();
    AbOutput(hist);
    OneBlock(p, LETTERS_STREAM, hist);
  }
}
