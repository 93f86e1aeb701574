// The DEFLATE format from the writer's side (RFC 1951): blocks as sequences of
// bit fields.
module DeflateFormat {
  import opened Words
  import opened Canonical
  import opened HuffmanTables
  import opened BitStream
  import opened InflateSpec
  import opened DynamicSpec
  import opened BlocksSpec

  // ------------------------------------------------------------------ bit fields

  /** The value `v` in `k` bits. */
  datatype Field = Field(v: nat, k: nat)

  predicate FieldsOK(fs: seq<Field>) {
    forall i :: 0 <= i < |fs| ==> fs[i].v < Pow2(fs[i].k)
  }

  /** `k` bits followed by the rest of the stream. */
  function Put(v: nat, k: nat, rest: nat): nat {
    v + rest * Pow2(k)
  }

  function Pack(fs: seq<Field>, rest: nat): nat {
    if |fs| == 0 then rest else Put(fs[0].v, fs[0].k, Pack(fs[1..], rest))
  }

  function Width(fs: seq<Field>): nat {
    if |fs| == 0 then 0 else fs[0].k + Width(fs[1..])
  }

  lemma {:induction false} PackAppend(a: seq<Field>, b: seq<Field>, rest: nat)
    ensures Pack(a + b, rest) == Pack(a, Pack(b, rest)) && Width(a + b) == Width(a) + Width(b)
  {
    hide Put;
    if |a| == 0 {
      assert a + b == b;
    } else {
      assert (a + b)[1..] == a[1..] + b;
      PackAppend(a[1..], b, rest);
    }
  }

  lemma {:induction false} PackSize(fs: seq<Field>, rest: nat, m: nat)
    requires FieldsOK(fs) && rest < Pow2(m)
    ensures Pack(fs, rest) < Pow2(Width(fs) + m)
  {
    hide Pow2;
    if |fs| > 0 {
      var w := Width(fs[1..]) + m;
      PackSize(fs[1..], rest, m);
      Pow2Add(w, fs[0].k);
      MulMonoStrict(Pack(fs[1..], rest), Pow2(w), Pow2(fs[0].k));
    }
  }

  lemma GetPut(v: nat, k: nat, rest: nat)
    requires v < Pow2(k)
    ensures Low(k, Put(v, k, rest)) == v && Shr(k, Put(v, k, rest)) == rest
  {
    Recombine(k, rest, v);
  }

  /** The first field of a packed sequence, and what comes after it. */
  lemma TakeField(fs: seq<Field>, rest: nat)
    requires |fs| > 0 && fs[0].v < Pow2(fs[0].k)
    ensures Low(fs[0].k, Pack(fs, rest)) == fs[0].v && Shr(fs[0].k, Pack(fs, rest)) == Pack(fs[1..], rest)
  {
    GetPut(fs[0].v, fs[0].k, Pack(fs[1..], rest));
  }

  /** What comes after all of them. */
  lemma {:induction false} SkipFields(fs: seq<Field>, rest: nat)
    requires FieldsOK(fs)
    ensures Shr(Width(fs), Pack(fs, rest)) == rest
  {
    hide Pow2, Low, Shr, Put, Pack;
    if |fs| == 0 {
      assert Pack(fs, rest) == rest by { PackNone(rest); }
      ShrNone(rest);
    } else {
      TakeField(fs, rest);
      SkipFields(fs[1..], rest);
      ShrShr(fs[0].k, Width(fs[1..]), Pack(fs, rest));
    }
  }

  lemma PackNone(rest: nat)
    ensures Pack([], rest) == rest
  {
  }

  lemma ShrNone(x: nat)
    ensures Shr(0, x) == x
  {
  }

  // ---------------------------------------------------------------------- codes

  /** Lengths for which there is a code for every symbol of nonzero length. */
  predicate Encodes(b: seq<nat>) {
    ValidLengths(b) && Kraft(b) <= Pow2(BMAX)
  }

  /** The code of a symbol as it is stored: first bit lowest. */
  function CodeField(b: seq<nat>, sym: nat): (f: Field)
    requires sym < |b|
    ensures f.v < Pow2(f.k)
  {
    Field(Rev(b[sym], Code(b, sym)), b[sym])
  }

  /** Two symbols whose codes a string starts with are the same. */
  lemma SymbolUnique(b: seq<nat>, s: nat, t: nat, str: nat)
    requires s < |b| && t < |b| && StartsWith(b, s, str) && StartsWith(b, t, str) && b[s] <= BMAX && b[t] <= BMAX
    ensures s == t
  {
    hide Rev;
    RankBelow(b, s);
    RankBelow(b, t);
    LenIs(Counts(b), b[s], str);
    LenIs(Counts(b), b[t], str);
    RankInjective(b, s, t);
  }

  lemma CodeFits(b: seq<nat>, sym: nat)
    requires Encodes(b) && sym < |b| && b[sym] > 0
    ensures Code(b, sym) < Pow2(b[sym])
  {
    hide Kraft, Pow2, Count, Beyond, First;
    var c, k := Counts(b), b[sym];
    RankBelow(b, sym);
    LastStep(c, k);
    KraftAtMax(b, BMAX);
    BeyondGrows(c, k, BMAX);
    Pow2Add(k, BMAX - k);
    if Beyond(c, k) > Pow2(k) { MulMonoStrict(Pow2(k), Beyond(c, k), Pow2(BMAX - k)); }
  }

  /** A code written to the stream is read back as its symbol. */
  lemma ReadCode(b: seq<nat>, sym: nat, rest: nat)
    requires Encodes(b) && sym < |b| && b[sym] > 0
    ensures var f := CodeField(b, sym);
            SymbolAt(b, Put(f.v, f.k, rest)) == sym
  {
    hide Code, Put, Count, Kraft, Rev, Low, Pow2, Shr;
    var f := CodeField(b, sym);
    var str := Put(f.v, f.k, rest);
    CodeFits(b, sym);
    GetPut(f.v, f.k, rest);
    RevLow(f.k, str);
    RevRev(f.k, Code(b, sym));
    LowSmall(f.k, Code(b, sym));
    assert StartsWith(b, sym, str);
    SymbolUnique(b, SymbolAt(b, str), sym, str);
  }

  // --------------------------------------------------------------------- tokens

  /** A byte, or a match: length code and distance code (counted from the first
      of each) with the values of their extra bits. */
  datatype Token = ByteToken(byte: Byte) | CopyToken(ls: nat, lx: nat, ds: nat, dx: nat)

  predicate TokenOK(c: Codes, t: Token) {
    match t
    case ByteToken(b) => b < |c.lit| && c.lit[b] > 0
    case CopyToken(ls, lx, ds, dx) =>
      ls < 29 && 257 + ls < |c.lit| && c.lit[257 + ls] > 0 && lx < Pow2(At(CPLEXT, ls))
      && ds < 30 && ds < |c.dst| && c.dst[ds] > 0 && dx < Pow2(At(CPDEXT, ds))
  }

  function CopyLength(t: Token): nat
    requires t.CopyToken?
  {
    At(CPLENS, t.ls) + t.lx
  }

  function CopyDistance(t: Token): nat
    requires t.CopyToken?
  {
    At(CPDIST, t.ds) + t.dx
  }

  /** Section 3.2.3: what a token adds to the bytes so far. */
  function PlayOne(t: Token, hist: seq<Byte>): seq<Byte> {
    if t.ByteToken? then hist + [t.byte] else CopyBack(hist, CopyLength(t), CopyDistance(t))
  }

  function Play(ts: seq<Token>, hist: seq<Byte>): seq<Byte> {
    if |ts| == 0 then hist else Play(ts[1..], PlayOne(ts[0], hist))
  }

  function TokenFields(c: Codes, t: Token): (fs: seq<Field>)
    requires TokenOK(c, t)
    ensures FieldsOK(fs) && |fs| > 0
  {
    match t
    case ByteToken(b) => [CodeField(c.lit, b)]
    case CopyToken(ls, lx, ds, dx) =>
      [CodeField(c.lit, 257 + ls), Field(lx, At(CPLEXT, ls)), CodeField(c.dst, ds), Field(dx, At(CPDEXT, ds))]
  }

  /** Codes with which the tokens of a block, and its end, can be written. */
  predicate TokensOK(c: Codes, ts: seq<Token>) {
    ValidCodes(c) && Encodes(c.lit) && Encodes(c.dst)
    && |c.lit| > 256 && c.lit[256] > 0 && forall i :: 0 <= i < |ts| ==> TokenOK(c, ts[i])
  }

  function BodyFields(c: Codes, ts: seq<Token>): (fs: seq<Field>)
    requires TokensOK(c, ts)
    ensures FieldsOK(fs)
  {
    if |ts| == 0 then [CodeField(c.lit, 256)] else TokenFields(c, ts[0]) + BodyFields(c, ts[1..])
  }

  lemma {:induction false} LengthCoded(len: nat, i: nat) returns (ls: nat, lx: nat)
    requires i < 29 && 3 <= len && if i == 28 then len <= 258 else len < At(CPLENS, i + 1)
    ensures ls < 29 && lx < Pow2(At(CPLEXT, ls)) && At(CPLENS, ls) + lx == len
  {
    SmallPowers();
    hide Pow2;
    if At(CPLENS, i) <= len {
      ls, lx := i, len - At(CPLENS, i);
      if i < 8 { } else if i < 16 { } else if i < 24 { } else { }
    } else {
      ls, lx := LengthCoded(len, i - 1);
    }
  }

  lemma {:induction false} DistanceCoded(dist: nat, i: nat) returns (ds: nat, dx: nat)
    requires i < 30 && 1 <= dist && if i == 29 then dist <= 32768 else dist < At(CPDIST, i + 1)
    ensures ds < 30 && dx < Pow2(At(CPDEXT, ds)) && At(CPDIST, ds) + dx == dist
  {
    SmallPowers();
    hide Pow2;
    if At(CPDIST, i) <= dist {
      ds, dx := i, dist - At(CPDIST, i);
      if i < 8 { } else if i < 16 { } else if i < 24 { } else { }
    } else {
      ds, dx := DistanceCoded(dist, i - 1);
    }
  }

  /** Every length of 3 to 258 at every distance of 1 to 32768 can be written
      (section 3.2.5). */
  lemma AnyMatch(len: nat, dist: nat) returns (t: Token)
    requires 3 <= len <= 258 && 1 <= dist <= 32768
    ensures t.CopyToken? && CopyLength(t) == len && CopyDistance(t) == dist
    ensures forall c: Codes :: 257 + t.ls < |c.lit| && t.ds < |c.dst| && c.lit[257 + t.ls] > 0 && c.dst[t.ds] > 0 ==>
              TokenOK(c, t)
  {
    hide Pow2;
    var ls, lx := LengthCoded(len, 28);
    var ds, dx := DistanceCoded(dist, 29);
    t := CopyToken(ls, lx, ds, dx);
  }

  // ---------------------------------------------------- the header of a dynamic block

  /** A code length symbol with the value of its extra bits. */
  datatype LengthRun = LengthRun(sym: nat, extra: nat)

  /** How the code lengths of a block are written: the lengths of the code length
      code, the first `n` of which are there, and its symbols. */
  datatype Plan = Plan(codes: Codes, bl: seq<nat>, n: nat, runs: seq<LengthRun>)

  predicate RunOK(bl: seq<nat>, r: LengthRun)
    requires |bl| == 19
  {
    r.sym < 19 && bl[r.sym] > 0 && (r.sym >= 16 ==> r.extra < Pow2(RepeatBits(r.sym)))
  }

  /** The runs spell `rest` after `lens`. */
  predicate Spells(runs: seq<LengthRun>, total: nat, lens: seq<nat>, all: seq<nat>) {
    if |runs| == 0 then lens == all && |lens| == total
    else
      |lens| < total && Short(lens) && runs[0].sym < 19
      && var r := AddLengths(runs[0].sym, runs[0].extra, total, lens);
         r.Lengths? && Spells(runs[1..], total, r.lens, all)
  }

  predicate PlanOK(p: Plan) {
    257 <= |p.codes.lit| <= 286 && 1 <= |p.codes.dst| <= 30 && 4 <= p.n <= 19
    && Accepted(p.codes.lit) && Accepted(p.codes.dst) && BitCodeOK(p.bl, p.n)
    && (forall i :: 0 <= i < |p.runs| ==> RunOK(p.bl, p.runs[i]))
    && Spells(p.runs, |p.codes.lit| + |p.codes.dst|, [], p.codes.lit + p.codes.dst)
  }

  /** Three bits hold each length, and those not written are zero. */
  predicate BitCodeOK(bl: seq<nat>, n: nat) {
    |bl| == 19 && Accepted(bl) && (forall s :: 0 <= s < 19 ==> bl[s] <= 7)
    && forall s :: 0 <= s < 19 && At(RANK, s) >= n ==> bl[s] == 0
  }

  /** The fourteen bits of HLIT, HDIST and HCLEN. */
  function TableOf(p: Plan): nat
    requires PlanOK(p)
  {
    (|p.codes.lit| - 257) + 32 * (|p.codes.dst| - 1) + 1024 * (p.n - 4)
  }

  /** The lengths of the code length code from place `i` of the order on. */
  function BitFields(bl: seq<nat>, n: nat, i: nat): (fs: seq<Field>)
    requires |bl| == 19 && i <= n <= 19 && forall s :: 0 <= s < 19 ==> bl[s] <= 7
    ensures FieldsOK(fs) && |fs| == n - i && Width(fs) == 3 * (n - i)
    decreases n - i
  {
    if i == n then [] else
      Ranked(i);
      SmallPowers();
      [Field(bl[BORDER[i]], 3)] + BitFields(bl, n, i + 1)
  }

  function RunFields(bl: seq<nat>, r: LengthRun): (fs: seq<Field>)
    requires |bl| == 19 && RunOK(bl, r)
    ensures FieldsOK(fs)
  {
    [CodeField(bl, r.sym)] + if r.sym < 16 then [] else [Field(r.extra, RepeatBits(r.sym))]
  }

  function RunsFields(bl: seq<nat>, runs: seq<LengthRun>): (fs: seq<Field>)
    requires |bl| == 19 && forall i :: 0 <= i < |runs| ==> RunOK(bl, runs[i])
    ensures FieldsOK(fs)
  {
    if |runs| == 0 then [] else RunFields(bl, runs[0]) + RunsFields(bl, runs[1..])
  }

  function PlanFields(p: Plan): (fs: seq<Field>)
    requires PlanOK(p)
    ensures FieldsOK(fs)
  {
    TableFits(p);
    [Field(TableOf(p), 14)] + BitFields(p.bl, p.n, 0) + RunsFields(p.bl, p.runs)
  }

  lemma TableFits(p: Plan)
    requires PlanOK(p)
    ensures TableOf(p) < Pow2(14)
    ensures var t := TableOf(p);
            LitCodes(t) == |p.codes.lit| && DistCodes(t) == |p.codes.dst| && BitCodes(t) == p.n && SizesOK(t)
            && TotalCodes(t) == |p.codes.lit| + |p.codes.dst|
  {
    hide Spells, Accepted;
    SmallPowers();
    assert Pow2(14) == 16384;
    ThreeParts(|p.codes.lit| - 257, |p.codes.dst| - 1, p.n - 4);
  }

  lemma ThreeParts(a: nat, b: nat, c: nat)
    requires a < 32 && b < 32 && c < 16
    ensures var t := a + 32 * b + 1024 * c; t % 32 == a && t / 32 % 32 == b && t / 1024 == c
  {
    assert (a + 32 * b + 1024 * c) / 32 == b + 32 * c;
  }

  // ------------------------------------------------------------ reading the header

  /** Bits of the stream that hold packed fields. */
  ghost predicate HoldsFields(input: seq<Byte>, pos: nat, fs: seq<Field>, rest: nat) {
    Bits(input, pos) == Pack(fs, rest)
  }

  lemma FirstField(input: seq<Byte>, pos: nat, fs: seq<Field>, rest: nat)
    requires HoldsFields(input, pos, fs, rest) && |fs| > 0 && fs[0].v < Pow2(fs[0].k)
    ensures Low(fs[0].k, Bits(input, pos)) == fs[0].v && HoldsFields(input, pos + fs[0].k, fs[1..], rest)
  {
    TakeField(fs, rest);
    BitsSkip(input, pos, fs[0].k);
  }

  /** The first of two sequences of fields, and what follows it. */
  lemma FieldsApart(input: seq<Byte>, pos: nat, a: seq<Field>, b: seq<Field>, rest: nat)
    requires HoldsFields(input, pos, a + b, rest) && FieldsOK(a)
    ensures HoldsFields(input, pos, a, Pack(b, rest)) && HoldsFields(input, pos + Width(a), b, rest)
  {
    PackAppend(a, b, rest);
    SkipFields(a, Pack(b, rest));
    BitsSkip(input, pos, Width(a));
  }

  /** The bit lengths are where the order says. */
  lemma {:induction false} BitsWritten(input: seq<Byte>, pos: nat, bl: seq<nat>, n: nat, i: nat, rest: nat, j: nat)
    requires |bl| == 19 && i <= j < n <= 19 && forall s :: 0 <= s < 19 ==> bl[s] <= 7
    requires HoldsFields(input, pos, BitFields(bl, n, i), rest)
    ensures BORDER[j] < 19 && Low(3, Bits(input, pos + 3 * (j - i))) == bl[BORDER[j]]
    decreases j - i
  {
    hide HoldsFields, Low, Pow2, Bits, BORDER, RANK, Width;
    Ranked(i);
    Ranked(j);
    var fs := BitFields(bl, n, i);
    assert fs[0] == Field(bl[BORDER[i]], 3) && fs[1..] == BitFields(bl, n, i + 1);
    FirstField(input, pos, fs, rest);
    if i < j { BitsWritten(input, pos + 3, bl, n, i + 1, rest, j); }
  }

  lemma BitLengthsRead(input: seq<Byte>, pos: nat, bl: seq<nat>, n: nat, rest: nat)
    requires n <= 19 && BitCodeOK(bl, n) && HoldsFields(input, pos, BitFields(bl, n, 0), rest)
    ensures BitLengths(n, Bits(input, pos)) == bl
  {
    hide HoldsFields, Low, Pow2, Bits, Accepted;
    forall s | 0 <= s < 19 ensures BitLengths(n, Bits(input, pos))[s] == bl[s] {
      Ranked(s);
      BitsSkip(input, pos, 3 * RANK[s]);
      if RANK[s] < n { BitsWritten(input, pos, bl, n, 0, rest, RANK[s]); }
    }
  }

  lemma RunRead(input: seq<Byte>, pos: nat, bl: seq<nat>, r: LengthRun, total: nat, lens: seq<nat>, rest: nat)
    requires |bl| == 19 && Encodes(bl) && RunOK(bl, r) && Short(lens) && |lens| < total
    requires HoldsFields(input, pos, RunFields(bl, r), rest)
    ensures match AddLengths(r.sym, r.extra, total, lens)
            case Lengths(used, lens') =>
              ReadOne(bl, total, input, pos, lens) == Lengths(pos + Width(RunFields(bl, r)), lens')
            case _ => true
  {
    hide HoldsFields, Low, Pow2, Bits, Encodes, SymbolAt, CodeField, Pack, Put;
    var fs := RunFields(bl, r);
    CodeWidth(bl, r.sym);
    StartsWithCode(input, pos, bl, r.sym, fs, rest);
    FirstField(input, pos, fs, rest);
    if r.sym >= 16 {
      assert fs[1..] == [Field(r.extra, RepeatBits(r.sym))];
      FirstField(input, pos + bl[r.sym], fs[1..], rest);
      TwoWidths(fs[0], fs[1]);
    } else {
      assert fs == [fs[0]];
      OneWidth(fs[0]);
    }
  }

  lemma OneWidth(f: Field)
    ensures Width([f]) == f.k
  {
    assert [f][1..] == [];
  }

  lemma TwoWidths(f: Field, g: Field)
    ensures Width([f, g]) == Width([f] + [g]) == f.k + g.k
  {
    assert [f, g] == [f] + [g];
    PackAppend([f], [g], 0);
    OneWidth(f);
    OneWidth(g);
  }

  lemma CodeWidth(b: seq<nat>, sym: nat)
    requires sym < |b|
    ensures CodeField(b, sym).k == b[sym]
  {
  }

  lemma StartsWithCode(input: seq<Byte>, pos: nat, b: seq<nat>, sym: nat, fs: seq<Field>, rest: nat)
    requires Encodes(b) && sym < |b| && b[sym] > 0
    requires HoldsFields(input, pos, fs, rest) && |fs| > 0 && fs[0] == CodeField(b, sym)
    ensures SymbolAt(b, Bits(input, pos)) == sym
  {
    hide Put, SymbolAt, CodeField;
    ReadCode(b, sym, Pack(fs[1..], rest));
  }

  lemma {:induction false} RunsRead(input: seq<Byte>, pos: nat, bl: seq<nat>, runs: seq<LengthRun>, total: nat,
                                    lens: seq<nat>, all: seq<nat>, rest: nat)
    requires |bl| == 19 && Encodes(bl) && (forall i :: 0 <= i < |runs| ==> RunOK(bl, runs[i]))
    requires Short(lens) && |lens| <= total && Spells(runs, total, lens, all)
    requires HoldsFields(input, pos, RunsFields(bl, runs), rest)
    ensures ReadLengths(bl, total, input, pos, lens) == Lengths(pos + Width(RunsFields(bl, runs)), all)
    decreases |runs|
  {
    hide HoldsFields, Bits, Encodes, ReadOne, RunOK, RunFields;
    if |runs| > 0 {
      var a, b := RunFields(bl, runs[0]), RunsFields(bl, runs[1..]);
      FieldsApart(input, pos, a, b, rest);
      RunRead(input, pos, bl, runs[0], total, lens, Pack(b, rest));
      var r := AddLengths(runs[0].sym, runs[0].extra, total, lens);
      RunsRead(input, pos + Width(a), bl, runs[1..], total, r.lens, all, rest);
      PackAppend(a, b, rest);
    }
  }

  /** The three parts of a header. */
  lemma PlanParts(input: seq<Byte>, pos: nat, p: Plan, rest: nat)
    requires PlanOK(p) && HoldsFields(input, pos, PlanFields(p), rest)
    ensures Low(14, Bits(input, pos)) == TableOf(p)
    ensures HoldsFields(input, pos + 14, BitFields(p.bl, p.n, 0), Pack(RunsFields(p.bl, p.runs), rest))
    ensures HoldsFields(input, pos + 14 + 3 * p.n, RunsFields(p.bl, p.runs), rest)
    ensures Width(PlanFields(p)) == 14 + 3 * p.n + Width(RunsFields(p.bl, p.runs))
  {
    hide HoldsFields, Bits, Low, Pow2, Spells, Accepted, RunsFields, BitFields, BitLengths, TableOf, RunOK;
    TableFits(p);
    var t := [Field(TableOf(p), 14)];
    var a, b := BitFields(p.bl, p.n, 0), RunsFields(p.bl, p.runs);
    OneWidth(t[0]);
    FieldsApart(input, pos, t + a, b, rest);
    FieldsApart(input, pos, t, a, Pack(b, rest));
    FirstField(input, pos, t, Pack(a, Pack(b, rest)));
    PackAppend(t, a, 0);
    PackAppend(t + a, b, 0);
  }

  lemma PlanLengths(input: seq<Byte>, pos: nat, p: Plan, rest: nat)
    requires PlanOK(p) && HoldsFields(input, pos, RunsFields(p.bl, p.runs), rest)
    ensures ReadLengths(p.bl, |p.codes.lit| + |p.codes.dst|, input, pos, [])
            == Lengths(pos + Width(RunsFields(p.bl, p.runs)), p.codes.lit + p.codes.dst)
  {
    hide HoldsFields, Bits, Low, Pow2, Spells, Accepted, Encodes, RunsFields, RunOK, Width, ReadLengths;
    AcceptedEncodes(p.bl);
    RunsRead(input, pos, p.bl, p.runs, |p.codes.lit| + |p.codes.dst|, [], p.codes.lit + p.codes.dst, rest);
  }

  /** What the parts of a header that has been written are read as. */
  lemma PlanSays(input: seq<Byte>, pos: nat, p: Plan, rest: nat)
    requires PlanOK(p) && HoldsFields(input, pos, PlanFields(p), rest)
    ensures var t := Low(14, Bits(input, pos));
            SizesOK(t) && LitCodes(t) == |p.codes.lit| && TotalCodes(t) == |p.codes.lit| + |p.codes.dst|
            && BitLengths(BitCodes(t), Bits(input, pos + 14)) == p.bl
            && ReadLengths(p.bl, TotalCodes(t), input, pos + 14 + 3 * BitCodes(t), [])
               == Lengths(pos + Width(PlanFields(p)), p.codes.lit + p.codes.dst)
  {
    hide HoldsFields, Bits, Low, Pow2, Spells, Accepted, RunsFields, BitFields, BitLengths, TableOf, PlanFields,
         RunOK, Width, ReadLengths, Pack;
    PlanParts(input, pos, p, rest);
    TableFits(p);
    BitLengthsRead(input, pos + 14, p.bl, p.n, Pack(RunsFields(p.bl, p.runs), rest));
    PlanLengths(input, pos + 14 + 3 * p.n, p, rest);
  }

  /** A header that has been written is read back as the codes it stands for. */
  lemma PlanRead(input: seq<Byte>, pos: nat, p: Plan, rest: nat)
    requires PlanOK(p) && HoldsFields(input, pos, PlanFields(p), rest)
    ensures ReadPreamble(input, pos) == Preamble(p.codes, pos + Width(PlanFields(p)))
  {
    hide HoldsFields, Bits, Low, Pow2, Spells, Accepted, RunsFields, BitFields, BitLengths, TableOf, PlanFields,
         RunOK, Width, ReadLengths, Pack;
    PlanSays(input, pos, p, rest);
    var all := p.codes.lit + p.codes.dst;
    assert all[..|p.codes.lit|] == p.codes.lit && all[|p.codes.lit|..] == p.codes.dst;
  }

  lemma AcceptedEncodes(b: seq<nat>)
    requires Accepted(b)
    ensures Encodes(b)
  {
  }

  // ------------------------------------------------- any codes can be transmitted

  /** Four bits for each of the lengths 0 to 15, no repetitions. */
  function Flat(): (r: seq<nat>)
    ensures |r| == 19 && forall s :: 0 <= s < 19 ==> r[s] == if s < 16 then 4 else 0
  {
    seq(19, (s: nat) => if s < 16 then 4 else 0)
  }

  lemma {:induction false} FlatKraft(k: nat)
    requires k <= 19
    ensures Short(Flat()[..k]) && Kraft(Flat()[..k]) == 2048 * (if k < 16 then k else 16)
  {
    if k > 0 {
      FlatKraft(k - 1);
      assert Flat()[..k][..k - 1] == Flat()[..k - 1];
      SmallPowers();
    }
  }

  lemma FlatOK()
    ensures BitCodeOK(Flat(), 19)
  {
    assert Flat()[..19] == Flat();
    FlatKraft(19);
    PowerFifteen();
    forall s | 0 <= s < 19 ensures At(RANK, s) < 19 { Ranked(s); }
  }

  function FlatRuns(all: seq<nat>): (r: seq<LengthRun>)
    ensures |r| == |all| && forall i :: 0 <= i < |r| ==> r[i] == LengthRun(all[i], 0)
  {
    seq(|all|, i requires 0 <= i < |all| => LengthRun(all[i], 0))
  }

  lemma {:induction false} FlatSpells(lens: seq<nat>, todo: seq<nat>, total: nat)
    requires Short(lens) && Short(todo) && |lens| + |todo| == total
    ensures Spells(FlatRuns(todo), total, lens, lens + todo)
    decreases |todo|
  {
    if |todo| == 0 {
      assert lens + todo == lens;
    } else {
      FlatSpells(lens + [todo[0]], todo[1..], total);
      assert lens + [todo[0]] + todo[1..] == lens + todo;
      assert FlatRuns(todo)[1..] == FlatRuns(todo[1..]);
    }
  }

  /** For any code lengths that the reader accepts there is a header. */
  lemma SomePlan(codes: Codes) returns (p: Plan)
    requires 257 <= |codes.lit| <= 286 && 1 <= |codes.dst| <= 30 && Accepted(codes.lit) && Accepted(codes.dst)
    ensures PlanOK(p) && p.codes == codes
  {
    hide Accepted, Spells, BitCodeOK, Flat;
    var all := codes.lit + codes.dst;
    p := Plan(codes, Flat(), 19, FlatRuns(all));
    FlatOK();
    LengthsShort(codes);
    FlatSpells([], all, |all|);
    assert [] + all == all;
    forall i | 0 <= i < |all| ensures RunOK(p.bl, p.runs[i]) { FlatRun(all[i]); }
  }

  lemma LengthsShort(codes: Codes)
    requires Accepted(codes.lit) && Accepted(codes.dst)
    ensures Short(codes.lit + codes.dst)
  {
  }

  lemma FlatRun(len: nat)
    requires len <= BMAX
    ensures RunOK(Flat(), LengthRun(len, 0))
  {
  }

  lemma PowerFifteen()
    ensures Pow2(15) == 32768
  {
    SmallPowers();
  }

  // ------------------------------------------------------ headers that say nothing

  /** The encoded stream as bytes. */
  function ToBytes(v: nat, n: nat): (r: seq<Byte>)
    ensures |r| == n
  {
    if n == 0 then [] else [v % 256] + ToBytes(v / 256, n - 1)
  }

  lemma {:induction false} ToBytesNumber(v: nat, n: nat)
    requires v < Pow2(8 * n)
    ensures Number(ToBytes(v, n)) == v
  {
    if n > 0 {
      assert Pow2(8 * n) == 256 * Pow2(8 * (n - 1)) by { Pow2Add(8, 8 * (n - 1)); assert Pow2(8) == 256; }
      ToBytesNumber(v / 256, n - 1);
      assert ToBytes(v, n)[1..] == ToBytes(v / 256, n - 1);
    }
  }

  /** Of the headers with the code length code `bl` all are decided exactly when
      that code is complete: otherwise the first code length can be one that is
      no code. */
  lemma DecidedIffComplete(t: nat, bl: seq<nat>)
    requires t < Pow2(14) && SizesOK(t) && BitCodes(t) <= 19 && BitCodeOK(bl, BitCodes(t))
    ensures (forall input, pos :: HeaderIs(input, pos, t, bl) ==> ReadPreamble(input, pos) != Undecided)
            <==> Kraft(bl) == Pow2(BMAX)
  {
    hide Kraft, Pow2, ReadPreamble, HeaderIs, BitFields;
    if Kraft(bl) == Pow2(BMAX) {
      forall input, pos | HeaderIs(input, pos, t, bl) ensures ReadPreamble(input, pos) != Undecided {
        CompleteDecides(input, pos, t, bl);
      }
    } else {
      var input := OnesAfter(t, bl);
      assert HeaderIs(input, 0, t, bl) && ReadPreamble(input, 0) == Undecided;
    }
  }

  /** The sizes and the code length code of a header. */
  ghost predicate HeaderIs(input: seq<Byte>, pos: nat, t: nat, bl: seq<nat>) {
    Low(14, Bits(input, pos)) == t && BitLengths(BitCodes(t), Bits(input, pos + 14)) == bl
  }

  lemma CompleteDecides(input: seq<Byte>, pos: nat, t: nat, bl: seq<nat>)
    requires HeaderIs(input, pos, t, bl) && SizesOK(t) && Accepted(bl) && |bl| == 19 && Kraft(bl) == Pow2(BMAX)
    ensures ReadPreamble(input, pos) != Undecided
  {
    hide Kraft, Pow2, Low, Bits, BitLengths, ReadLengths;
    CompleteReads(bl, TotalCodes(t), input, pos + 14 + 3 * BitCodes(t), []);
  }

  /** A header with that code, and then ones. */
  lemma OnesAfter(t: nat, bl: seq<nat>) returns (input: seq<Byte>)
    requires t < Pow2(14) && SizesOK(t) && BitCodes(t) <= 19 && BitCodeOK(bl, BitCodes(t)) && Kraft(bl) < Pow2(BMAX)
    ensures HeaderIs(input, 0, t, bl) && ReadPreamble(input, 0) == Undecided
  {
    hide Kraft, Pow2, Low, Shr, Bits, BitLengths, BitFields, ReadLengths, Pack, Width, Accepted, Number, Put;
    var n, ones := BitCodes(t), Pow2(BMAX) - 1;
    var a, b := [Field(t, 14)], BitFields(bl, n, 0);
    OneWidth(a[0]);
    PackAppend(a, b, ones);
    PackSize(a + b, ones, BMAX);
    input := Packed(a + b, ones);
    FieldsApart(input, 0, a, b, ones);
    FirstField(input, 0, a, Pack(b, ones));
    BitLengthsRead(input, 14, bl, n, ones);
    FieldsEnd(input, 14, b, ones);
    OnesUncovered(bl);
    AcceptedEncodes(bl);
    NoneRead(input, 0, t, bl);
  }

  lemma FieldsEnd(input: seq<Byte>, pos: nat, fs: seq<Field>, rest: nat)
    requires HoldsFields(input, pos, fs, rest) && FieldsOK(fs)
    ensures Bits(input, pos + Width(fs)) == rest
  {
    SkipFields(fs, rest);
    BitsSkip(input, pos, Width(fs));
  }

  lemma NoneRead(input: seq<Byte>, pos: nat, t: nat, bl: seq<nat>)
    requires HeaderIs(input, pos, t, bl) && SizesOK(t) && Accepted(bl) && |bl| == 19
    requires SymbolAt(bl, Bits(input, pos + 14 + 3 * BitCodes(t))) == -1
    ensures ReadPreamble(input, pos) == Undecided
  {
    hide Low, Bits, BitLengths, SymbolAt, Accepted;
  }

  /** Bytes that hold the fields. */
  lemma Packed(fs: seq<Field>, rest: nat) returns (input: seq<Byte>)
    requires FieldsOK(fs) && rest < Pow2(BMAX)
    ensures HoldsFields(input, 0, fs, rest)
  {
    hide Pack, Width, Number;
    PackSize(fs, rest, BMAX);
    var n := Width(fs) + BMAX;
    Pow2Mono(n, 8 * n);
    input := ToBytes(Pack(fs, rest), n);
    ToBytesNumber(Pack(fs, rest), n);
    ShrNone(Number(input));
  }
}
