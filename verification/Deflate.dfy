// Decoding undoes encoding: streams of stored blocks and of blocks written in
// fixed or in transmitted codes, in any mixture, decode to what was encoded.
module Deflate {
  import opened ReturnCodes
  import opened Words
  import opened Canonical
  import opened HuffmanTables
  import opened BitStream
  import opened BitInput
  import opened SlidingWindow
  import opened InflateSpec
  import opened CodesState
  import opened InflateCodes
  import opened DynamicSpec
  import opened BlocksSpec
  import opened TableBuilder
  import opened DynamicTrees
  import opened StreamMemory
  import opened InflateBlocks
  import opened InflateComplete
  import opened FixedTables
  import opened DeflateFormat

  /** One block: bytes as they are, or tokens in the fixed codes or in codes of
      the block's own. */
  datatype Piece =
    | StoredPiece(bytes: seq<Byte>)
    | FixedPiece(tokens: seq<Token>)
    | DynamicPiece(plan: Plan, tokens: seq<Token>)

  predicate PieceOK(p: Piece) {
    match p
    case StoredPiece(bytes) => |bytes| <= 65535
    case FixedPiece(ts) => TokensOK(FixedCodes(), ts)
    case DynamicPiece(plan, ts) => PlanOK(plan) && TokensOK(plan.codes, ts)
  }

  predicate Encodable(pieces: seq<Piece>) {
    forall i :: 0 <= i < |pieces| ==> PieceOK(pieces[i])
  }

  /** What a block adds to the bytes so far. */
  function PieceOutput(p: Piece, hist: seq<Byte>): seq<Byte> {
    if p.StoredPiece? then hist + p.bytes else Play(p.tokens, hist)
  }

  function Output(pieces: seq<Piece>, hist: seq<Byte>): seq<Byte> {
    if |pieces| == 0 then hist else Output(pieces[1..], PieceOutput(pieces[0], hist))
  }

  // -------------------------------------------------------------- encoding

  function ByteFields(bytes: seq<Byte>): (fs: seq<Field>)
    ensures FieldsOK(fs)
  {
    if |bytes| == 0 then [] else
      ByteSize(bytes[0]);
      [Field(bytes[0], 8)] + ByteFields(bytes[1..])
  }

  lemma {:induction false} BytesWidth(bytes: seq<Byte>)
    ensures Width(ByteFields(bytes)) == 8 * |bytes|
  {
    if |bytes| > 0 {
      BytesWidth(bytes[1..]);
      PackAppend([Field(bytes[0], 8)], ByteFields(bytes[1..]), 0);
      OneWidth(Field(bytes[0], 8));
    }
  }

  lemma ByteSize(b: Byte)
    ensures b < Pow2(8)
  {
    SmallPowers();
  }

  /** LEN, its complement NLEN (section 3.2.4 of RFC 1951). */
  function LenFields(len: nat): (fs: seq<Field>)
    requires len <= 65535
    ensures FieldsOK(fs) && Width(fs) == 32
  {
    Power16();
    TwoWidths(Field(len, 16), Field(65535 - len, 16));
    [Field(len, 16), Field(65535 - len, 16)]
  }

  lemma Power16()
    ensures Pow2(16) == 65536
  {
    Pow2Add(8, 8);
    SmallPowers();
  }

  /** Zeros up to the next byte boundary. */
  function PadFields(pos: nat): (fs: seq<Field>)
    ensures FieldsOK(fs) && pos + Width(fs) == Aligned(pos)
  {
    OneWidth(Field(0, Aligned(pos) - pos));
    [Field(0, Aligned(pos) - pos)]
  }

  /** The last-block bit and the two type bits. */
  function TypeField(p: Piece, final: bool): (f: Field)
    ensures f.v < Pow2(f.k) && f.k == 3 && (f.v % 2 == 1 <==> final)
    ensures f.v / 2 == match p case StoredPiece(_) => 0 case FixedPiece(_) => 1 case DynamicPiece(_, _) => 2
  {
    SmallPowers();
    var last := if final then 1 else 0;
    Field(last + (match p case StoredPiece(_) => 0 case FixedPiece(_) => 2 case DynamicPiece(_, _) => 4), 3)
  }

  /** What follows the type bits of a block that begins at `pos`. */
  function ContentFields(p: Piece, pos: nat): (fs: seq<Field>)
    requires PieceOK(p)
    ensures FieldsOK(fs)
  {
    match p
    case StoredPiece(bytes) => PadFields(pos + 3) + LenFields(|bytes|) + ByteFields(bytes)
    case FixedPiece(ts) => BodyFields(FixedCodes(), ts)
    case DynamicPiece(plan, ts) => PlanFields(plan) + BodyFields(plan.codes, ts)
  }

  function PieceFields(p: Piece, final: bool, pos: nat): (fs: seq<Field>)
    requires PieceOK(p)
    ensures FieldsOK(fs)
  {
    [TypeField(p, final)] + ContentFields(p, pos)
  }

  function PieceEnd(p: Piece, pos: nat): nat
    requires PieceOK(p)
  {
    pos + 3 + Width(ContentFields(p, pos))
  }

  function EndOf(pieces: seq<Piece>, pos: nat): nat
    requires Encodable(pieces)
  {
    if |pieces| == 0 then pos else EndOf(pieces[1..], PieceEnd(pieces[0], pos))
  }

  /** The stream from bit position `pos` on; after the last block comes `tail`,
      on the next byte boundary. */
  function Encode(pieces: seq<Piece>, pos: nat, tail: nat): nat
    requires Encodable(pieces)
  {
    if |pieces| == 0 then Put(0, Aligned(pos) - pos, tail)
    else Pack(PieceFields(pieces[0], |pieces| == 1, pos), Encode(pieces[1..], PieceEnd(pieces[0], pos), tail))
  }

  lemma AlignedAbove(pos: nat)
    ensures pos <= Aligned(pos) < pos + 8 && Aligned(pos) % 8 == 0
  {
  }

  lemma PieceWidth(p: Piece, final: bool, pos: nat)
    requires PieceOK(p)
    ensures PieceEnd(p, pos) == pos + Width(PieceFields(p, final, pos))
  {
    hide Width, ContentFields;
    PackAppend([TypeField(p, final)], ContentFields(p, pos), 0);
    OneWidth(TypeField(p, final));
  }

  lemma {:induction false} EncodeSize(pieces: seq<Piece>, pos: nat, tail: nat, m: nat)
    requires Encodable(pieces) && tail < Pow2(m)
    ensures pos <= EndOf(pieces, pos)
    ensures Encode(pieces, pos, tail) < Pow2(Aligned(EndOf(pieces, pos)) - pos + m)
  {
    hide Pack, Width, Pow2, Aligned, PieceOK, PieceFields, ContentFields;
    AlignedAbove(pos);
    if |pieces| == 0 {
      PadSize(Aligned(pos) - pos, tail, m);
    } else {
      var p := pieces[0];
      var next := PieceEnd(p, pos);
      PieceWidth(p, |pieces| == 1, pos);
      EncodeSize(pieces[1..], next, tail, m);
      AlignedAbove(EndOf(pieces[1..], next));
      PackSize(PieceFields(p, |pieces| == 1, pos), Encode(pieces[1..], next, tail),
        Aligned(EndOf(pieces, pos)) - next + m);
    }
  }

  lemma PadSize(k: nat, tail: nat, m: nat)
    requires tail < Pow2(m)
    ensures Put(0, k, tail) < Pow2(k + m)
  {
    Pow2Add(m, k);
    MulMonoStrict(tail, Pow2(m), Pow2(k));
  }

  lemma {:induction false} NumberSize(input: seq<Byte>)
    ensures Number(input) < Pow2(8 * |input|)
  {
    if |input| > 0 {
      NumberSize(input[1..]);
      Pow2Add(8, 8 * (|input| - 1));
      assert Pow2(8) == 256;
    }
  }

  /** How many bytes the blocks take. */
  function StreamBytes(pieces: seq<Piece>): nat
    requires Encodable(pieces)
  {
    Aligned(EndOf(pieces, 0)) / 8
  }

  lemma EncodingFits(pieces: seq<Piece>, trailer: seq<Byte>)
    requires Encodable(pieces)
    ensures var v := Encode(pieces, 0, Number(trailer));
            Number(ToBytes(v, StreamBytes(pieces) + |trailer|)) == v
  {
    hide Pow2, Encode, EndOf, Number, Aligned, Encodable, ToBytes;
    NumberSize(trailer);
    EncodeSize(pieces, 0, Number(trailer), 8 * |trailer|);
    WholeBytes(EndOf(pieces, 0), |trailer|);
    ToBytesNumber(Encode(pieces, 0, Number(trailer)), StreamBytes(pieces) + |trailer|);
  }

  lemma WholeBytes(pos: nat, n: nat)
    ensures Aligned(pos) - 0 + 8 * n == 8 * (Aligned(pos) / 8 + n)
  {
  }

  /** The encoder: the blocks as bytes, then the trailer. */
  function EncodeBytes(pieces: seq<Piece>, trailer: seq<Byte>): (r: seq<Byte>)
    requires Encodable(pieces)
    ensures |r| == StreamBytes(pieces) + |trailer| && Number(r) == Encode(pieces, 0, Number(trailer))
  {
    EncodingFits(pieces, trailer);
    ToBytes(Encode(pieces, 0, Number(trailer)), StreamBytes(pieces) + |trailer|)
  }

  // -------------------------------------------------------- reading it back

  /** A token that has been written is read back. */
  lemma TokenRead(c: Codes, input: seq<Byte>, pos: nat, t: Token, rest: nat)
    requires Encodes(c.lit) && Encodes(c.dst) && TokenOK(c, t)
    requires HoldsFields(input, pos, TokenFields(c, t), rest)
    ensures var used := Width(TokenFields(c, t));
            ReadSymbol(c, Bits(input, pos)) == (if t.ByteToken? then Literal(t.byte, used)
                                                else Match(CopyLength(t), CopyDistance(t), used))
    ensures forall hist :: CleanAt(c, input, State(pos, hist))
  {
    hide HoldsFields, Bits, Encodes, Pack, Width;
    if t.ByteToken? {
      LiteralRead(c, input, pos, t.byte, TokenFields(c, t), rest);
      OneWidth(CodeField(c.lit, t.byte));
    } else {
      CopyRead(c, input, pos, t, rest);
    }
  }

  /** A byte or the end of the block. */
  lemma LiteralRead(c: Codes, input: seq<Byte>, pos: nat, sym: nat, fs: seq<Field>, rest: nat)
    requires Encodes(c.lit) && sym <= 256 && sym < |c.lit| && c.lit[sym] > 0
    requires |fs| == 1 && fs[0] == CodeField(c.lit, sym) && HoldsFields(input, pos, fs, rest)
    ensures ReadSymbol(c, Bits(input, pos)) == (if sym == 256 then EndBlock(c.lit[sym]) else Literal(sym, c.lit[sym]))
    ensures forall hist :: CleanAt(c, input, State(pos, hist))
  {
    hide HoldsFields, Bits, Encodes;
    StartsWithCode(input, pos, c.lit, sym, fs, rest);
    LiteralMeans(c, Bits(input, pos), sym);
    forall hist ensures CleanAt(c, input, State(pos, hist)) { LiteralClean(c, input, State(pos, hist), sym); }
  }

  lemma LiteralMeans(c: Codes, str: nat, sym: nat)
    requires sym <= 256 && sym < |c.lit| && SymbolAt(c.lit, str) == sym
    ensures ReadSymbol(c, str) == if sym == 256 then EndBlock(c.lit[sym]) else Literal(sym, c.lit[sym])
    ensures !HasExtra(Canon(LITLEN, c.lit, str).entry.exop)
  {
    hide Canon, EntryOf, Shr, HasExtra, SymbolAt, SymbolOf, ExtendedUsed;
    CanonIs(c.lit, str, sym);
    LiteralEntry(sym);
    NoExtra();
    var lit := Canon(LITLEN, c.lit, str);
    PlainSymbol(lit, Canon(DIST, c.dst, Shr(ExtendedUsed(lit), str)), str);
  }

  /** Bytes and the end of a block do not look at the distance code. */
  lemma PlainSymbol(lit: Found, dst: Found, str: nat)
    requires (lit.entry.exop == 0 && lit.entry.more < 256) || lit.entry.exop == END_OF_BLOCK
    ensures SymbolOf(lit, dst, str) == if lit.entry.exop == 0 then Literal(lit.entry.more, lit.used)
            else EndBlock(lit.used)
  {
    hide HasExtra, IsEnd, Extended, ExtendedUsed;
    NoExtra();
    LitKinds(END_OF_BLOCK);
  }

  lemma CanonIs(lens: seq<nat>, str: nat, sym: nat)
    requires SymbolAt(lens, str) == sym && sym < |lens|
    ensures Canon(LITLEN, lens, str) == Found(EntryOf(LITLEN, sym), lens[sym])
  {
  }

  lemma LiteralClean(c: Codes, input: seq<Byte>, s: State, sym: nat)
    requires sym <= 256 && sym < |c.lit| && SymbolAt(c.lit, Bits(input, s.pos)) == sym
    ensures CleanAt(c, input, s)
  {
    hide SymbolAt, Bits, Canon, Recognizable, ReadSymbol, HasExtra;
    LiteralMeans(c, Bits(input, s.pos), sym);
  }

  lemma LiteralEntry(sym: nat)
    requires sym <= 256
    ensures EntryOf(LITLEN, sym) == Huft(if sym == 256 then END_OF_BLOCK else 0, 0, sym)
  {
  }

  lemma LengthEntry(ls: nat)
    requires ls < 29
    ensures var e := EntryOf(LITLEN, 257 + ls);
            HasExtra(e.exop) && e.exop % 16 == At(CPLEXT, ls) && e.more == At(CPLENS, ls) >= 3 && e.exop != 0
  {
    hide CPLENS, CPLEXT, HasExtra;
    ListSizes();
    LengthList(ls);
    ExtraByte(CPLEXT[ls]);
    NoExtra();
  }

  lemma DistanceEntry(ds: nat)
    requires ds < 30
    ensures var e := EntryOf(DIST, ds);
            HasExtra(e.exop) && e.exop % 16 == At(CPDEXT, ds) && e.more == At(CPDIST, ds)
  {
    hide CPDIST, CPDEXT, HasExtra;
    ListSizes();
    DistanceList(ds);
    ExtraByte(CPDEXT[ds]);
  }

  /** A match, field by field. */
  lemma CopyRead(c: Codes, input: seq<Byte>, pos: nat, t: Token, rest: nat)
    requires Encodes(c.lit) && Encodes(c.dst) && t.CopyToken? && TokenOK(c, t)
    requires HoldsFields(input, pos, TokenFields(c, t), rest)
    ensures ReadSymbol(c, Bits(input, pos)) == Match(CopyLength(t), CopyDistance(t), Width(TokenFields(c, t)))
    ensures forall hist :: CleanAt(c, input, State(pos, hist))
  {
    hide HoldsFields, Bits, Encodes, SymbolAt, EntryOf, Low, Shr, Pow2, HasExtra, IsEnd, Recognizable, CodeField,
         Pack, Width, CPLENS, CPLEXT, CPDIST, CPDEXT;
    var fs := TokenFields(c, t);
    var lk, dk := c.lit[257 + t.ls], c.dst[t.ds];
    var lx, dx := At(CPLEXT, t.ls), At(CPDEXT, t.ds);
    CodeWidth(c.lit, 257 + t.ls);
    CodeWidth(c.dst, t.ds);
    FourFields(input, pos, fs, rest);
    StartsWithCode(input, pos, c.lit, 257 + t.ls, fs, rest);
    StartsWithCode(input, pos + lk + lx, c.dst, t.ds, fs[2..], rest);
    LengthEntry(t.ls);
    DistanceEntry(t.ds);
    BitsSkip(input, pos, lk);
    BitsSkip(input, pos, lk + lx);
    BitsSkip(input, pos + lk + lx, dk);
  }

  lemma FourFields(input: seq<Byte>, pos: nat, fs: seq<Field>, rest: nat)
    requires |fs| == 4 && FieldsOK(fs) && HoldsFields(input, pos, fs, rest)
    ensures var p1 := pos + fs[0].k;
            var p2 := p1 + fs[1].k;
            Low(fs[1].k, Bits(input, p1)) == fs[1].v
            && HoldsFields(input, p2, fs[2..], rest)
            && Low(fs[3].k, Bits(input, p2 + fs[2].k)) == fs[3].v
            && Width(fs) == fs[0].k + fs[1].k + fs[2].k + fs[3].k
  {
    hide HoldsFields, Bits, Low, Pow2, Pack;
    FirstField(input, pos, fs, rest);
    FirstField(input, pos + fs[0].k, fs[1..], rest);
    assert fs[1..][1..] == fs[2..];
    FirstField(input, pos + fs[0].k + fs[1].k, fs[2..], rest);
    assert fs[2..][1..] == fs[3..];
    FirstField(input, pos + fs[0].k + fs[1].k + fs[2].k, fs[3..], rest);
    assert fs[3..][1..] == [];
    assert Width(fs[2..]) == fs[2].k + (fs[3].k + Width(fs[3..][1..]));
    assert Width(fs[1..]) == fs[1].k + Width(fs[2..]);
  }

  // ------------------------------------------------- the run of an encoded stream

  /** The program takes an empty stored block for one that another follows. */
  predicate EndsOpen(pieces: seq<Piece>) {
    |pieces| > 0 && pieces[|pieces| - 1] == StoredPiece([])
  }

  /** Where reading the pieces leads. */
  function Goal(pieces: seq<Piece>, pos: nat, hist: seq<Byte>): Stream
    requires Encodable(pieces)
  {
    Stream(if EndsOpen(pieces) then Header else Finished, true, EndOf(pieces, pos), Output(pieces, hist))
  }

  /** What of the stream is still to be read: the rest of the current block, and
      the blocks after it. */
  datatype Ahead =
    | AtHeader(pieces: seq<Piece>)
    | InStored(bytes: seq<Byte>, pieces: seq<Piece>)
    | InDynamic(plan: Plan, tokens: seq<Token>, pieces: seq<Piece>)
    | InCoded(tokens: seq<Token>, pieces: seq<Piece>)

  function Size(w: Ahead): nat {
    match w
    case AtHeader(_) => 0
    case InStored(bytes, _) => |bytes|
    case InDynamic(_, ts, _) => |ts| + 2
    case InCoded(ts, _) => |ts| + 1
  }

  /** The rest of a block holds `fs`, and the blocks after it lead to `goal`. */
  ghost predicate BlockAhead(input: seq<Byte>, tail: nat, pos: nat, last: bool, goal: Stream, fs: seq<Field>,
                             hist: seq<Byte>, pieces: seq<Piece>)
    requires Encodable(pieces)
  {
    last == (|pieces| == 0)
    && HoldsFields(input, pos, fs, Encode(pieces, pos + Width(fs), tail))
    && goal == Goal(pieces, pos + Width(fs), hist)
  }

  /** State `s` is on the way to `goal`, with `w` ahead. */
  ghost predicate OnTrack(input: seq<Byte>, tail: nat, s: Stream, goal: Stream, w: Ahead) {
    Encodable(w.pieces)
    && match w
       case AtHeader(pieces) =>
         if |pieces| == 0 then s == goal
         else
           s.phase == Header && Bits(input, s.pos) == Encode(pieces, s.pos, tail) && goal == Goal(pieces, s.pos, s.hist)
       case InStored(bytes, pieces) =>
         |bytes| > 0 && s.phase == Stored(|bytes|)
         && BlockAhead(input, tail, s.pos, s.last, goal, ByteFields(bytes), s.hist + bytes, pieces)
       case InDynamic(plan, ts, pieces) =>
         s.phase == Dynamic && PieceOK(DynamicPiece(plan, ts))
         && BlockAhead(input, tail, s.pos, s.last, goal, PlanFields(plan) + BodyFields(plan.codes, ts),
           Play(ts, s.hist), pieces)
       case InCoded(ts, pieces) =>
         s.phase.Coded? && TokensOK(s.phase.c, ts)
         && BlockAhead(input, tail, s.pos, s.last, goal, BodyFields(s.phase.c, ts), Play(ts, s.hist), pieces)
  }

  /** Part of a block has been read. */
  lemma PartRead(input: seq<Byte>, tail: nat, pos: nat, last: bool, goal: Stream, a: seq<Field>, b: seq<Field>,
                 hist: seq<Byte>, pieces: seq<Piece>)
    requires Encodable(pieces) && FieldsOK(a) && BlockAhead(input, tail, pos, last, goal, a + b, hist, pieces)
    ensures BlockAhead(input, tail, pos + Width(a), last, goal, b, hist, pieces)
    ensures HoldsFields(input, pos, a, Pack(b, Encode(pieces, pos + Width(a + b), tail)))
  {
    hide Encode, EndOf, Goal, Output, Encodable, HoldsFields, Pack, Width;
    PackAppend(a, b, 0);
    FieldsApart(input, pos, a, b, Encode(pieces, pos + Width(a + b), tail));
  }

  /** All of a block has been read. */
  lemma BlockRead(input: seq<Byte>, tail: nat, pos: nat, last: bool, goal: Stream, hist: seq<Byte>, pieces: seq<Piece>)
    requires Encodable(pieces) && BlockAhead(input, tail, pos, last, goal, [], hist, pieces)
    ensures OnTrack(input, tail, AfterBlock(last, pos, hist), goal, AtHeader(pieces))
  {
    hide Encode, Encodable, Bits;
    PackNone(Encode(pieces, pos, tail));
    AtGoal(pos, hist);
  }

  lemma AtGoal(pos: nat, hist: seq<Byte>)
    ensures Goal([], pos, hist) == AfterBlock(true, pos, hist)
  {
  }

  lemma StoredTrack(input: seq<Byte>, tail: nat, s: Stream, goal: Stream, w: Ahead) returns (w': Ahead)
    requires OnTrack(input, tail, s, goal, w) && w.InStored?
    ensures OnTrack(input, tail, StreamStep(input, s), goal, w')
    ensures w'.pieces == w.pieces && Size(w') < Size(w) && !w'.InDynamic?
  {
    hide Low, Bits, Encode, Encodable, Goal, HoldsFields, Pack, Width, BlockAhead;
    var b := w.bytes[0];
    var a, fs := [Field(b, 8)], ByteFields(w.bytes[1..]);
    ByteSize(b);
    OneWidth(a[0]);
    assert s.hist + w.bytes == s.hist + [b] + w.bytes[1..];
    PartRead(input, tail, s.pos, s.last, goal, a, fs, s.hist + w.bytes, w.pieces);
    FirstField(input, s.pos, a, Pack(fs, Encode(w.pieces, s.pos + Width(a + fs), tail)));
    var t := StreamStep(input, s);
    assert t.pos == s.pos + 8 && t.hist == s.hist + [b] && t.last == s.last;
    if |w.bytes| == 1 {
      w' := AtHeader(w.pieces);
      assert w.bytes == [b] && fs == [];
      BlockRead(input, tail, s.pos + 8, s.last, goal, s.hist + w.bytes, w.pieces);
    } else {
      w' := InStored(w.bytes[1..], w.pieces);
    }
  }

  /** The end of a compressed block. */
  lemma EndTrack(input: seq<Byte>, tail: nat, s: Stream, goal: Stream, w: Ahead)
    requires OnTrack(input, tail, s, goal, w) && w == InCoded([], w.pieces)
    ensures OnTrack(input, tail, StreamStep(input, s), goal, AtHeader(w.pieces)) && StateClean(input, s)
  {
    hide Low, Bits, Encode, Encodable, Goal, HoldsFields, Pack, Width, BlockAhead, CodeField, ReadSymbol, CleanAt,
         Encodes, TokenOK;
    var c := s.phase.c;
    var fs := BodyFields(c, []);
    assert fs + [] == fs;
    PartRead(input, tail, s.pos, s.last, goal, fs, [], s.hist, w.pieces);
    LiteralRead(c, input, s.pos, 256, fs, Pack([], Encode(w.pieces, s.pos + Width(fs + []), tail)));
    OneWidth(CodeField(c.lit, 256));
    CodeWidth(c.lit, 256);
    BlockRead(input, tail, s.pos + Width(fs), s.last, goal, s.hist, w.pieces);
  }

  /** Reading a token is a step of the stream. */
  lemma TokenStep(c: Codes, input: seq<Byte>, s: Stream, t: Token, rest: nat)
    requires s.phase == Coded(c) && Encodes(c.lit) && Encodes(c.dst) && TokenOK(c, t)
    requires HoldsFields(input, s.pos, TokenFields(c, t), rest)
    ensures StreamStep(input, s) == Stream(s.phase, s.last, s.pos + Width(TokenFields(c, t)), PlayOne(t, s.hist))
    ensures StateClean(input, s)
  {
    hide Low, Bits, HoldsFields, Width, TokenFields, ReadSymbol, CleanAt, Encodes, CopyBack, CopyLength, CopyDistance;
    TokenRead(c, input, s.pos, t, rest);
  }

  lemma CodedTrack(input: seq<Byte>, tail: nat, s: Stream, goal: Stream, w: Ahead) returns (w': Ahead)
    requires OnTrack(input, tail, s, goal, w) && w.InCoded?
    ensures OnTrack(input, tail, StreamStep(input, s), goal, w') && StateClean(input, s)
    ensures w'.pieces == w.pieces && Size(w') < Size(w) && !w'.InDynamic?
  {
    hide Low, Bits, Encode, Encodable, Goal, HoldsFields, Pack, Width, BlockAhead, CodeField, ReadSymbol, CleanAt,
         Encodes, TokenOK, StreamStep, StateClean, PlayOne, TokenFields;
    var c := s.phase.c;
    var hist := Play(w.tokens, s.hist);
    if |w.tokens| == 0 {
      EndTrack(input, tail, s, goal, w);
      w' := AtHeader(w.pieces);
    } else {
      var a, b := TokenFields(c, w.tokens[0]), BodyFields(c, w.tokens[1..]);
      PartRead(input, tail, s.pos, s.last, goal, a, b, hist, w.pieces);
      TokenStep(c, input, s, w.tokens[0], Pack(b, Encode(w.pieces, s.pos + Width(a + b), tail)));
      w' := InCoded(w.tokens[1..], w.pieces);
    }
  }

  lemma DynamicTrack(input: seq<Byte>, tail: nat, s: Stream, goal: Stream, w: Ahead, memory: nat) returns (w': Ahead)
    requires OnTrack(input, tail, s, goal, w) && w.InDynamic?
    ensures OnTrack(input, tail, StreamStep(input, s), goal, w') && StateClean(input, s)
    ensures ShortAt(input, memory, s) <==> PlanShort(w.plan, memory)
    ensures w'.pieces == w.pieces && Size(w') < Size(w) && !w'.InDynamic?
  {
    hide Low, Bits, Encode, Encodable, Goal, HoldsFields, Pack, Width, BlockAhead, PlanOK, PlanFields, BodyFields,
         TokensOK, ReadPreamble, HeaderShort, PlanShort;
    var a, b := PlanFields(w.plan), BodyFields(w.plan.codes, w.tokens);
    PartRead(input, tail, s.pos, s.last, goal, a, b, Play(w.tokens, s.hist), w.pieces);
    var rest := Pack(b, Encode(w.pieces, s.pos + Width(a + b), tail));
    PlanRead(input, s.pos, w.plan, rest);
    PlanMemory(input, s.pos, w.plan, rest, memory);
    w' := InCoded(w.tokens, w.pieces);
  }

  /** The goal of a list of pieces is that of its tail, one piece further on. */
  lemma GoalStep(pieces: seq<Piece>, pos: nat, hist: seq<Byte>)
    requires Encodable(pieces) && |pieces| > 0
    ensures var p := pieces[0];
            if pieces == [StoredPiece([])] then Goal(pieces, pos, hist) == Stream(Header, true, PieceEnd(p, pos), hist)
            else Goal(pieces, pos, hist) == Goal(pieces[1..], PieceEnd(p, pos), PieceOutput(p, hist))
  {
    hide PieceOK, PieceEnd;
    if pieces == [StoredPiece([])] {
      assert pieces[1..] == [] && hist + [] == hist;
      assert Output(pieces[1..], hist) == hist;
      assert EndOf(pieces[1..], PieceEnd(pieces[0], pos)) == PieceEnd(pieces[0], pos);
    }
  }

  /** The type bits, and then the block. */
  lemma HeaderRead(input: seq<Byte>, tail: nat, s: Stream, goal: Stream, pieces: seq<Piece>)
    requires OnTrack(input, tail, s, goal, AtHeader(pieces)) && |pieces| > 0
    ensures Encodable(pieces[1..]) && PieceOK(pieces[0])
    ensures Low(3, Bits(input, s.pos)) == TypeField(pieces[0], |pieces| == 1).v
    ensures HoldsFields(input, s.pos + 3, ContentFields(pieces[0], s.pos),
            Encode(pieces[1..], PieceEnd(pieces[0], s.pos), tail))
    ensures pieces != [StoredPiece([])] ==>
              BlockAhead(input, tail, s.pos + 3, |pieces| == 1, goal, ContentFields(pieces[0], s.pos),
                         PieceOutput(pieces[0], s.hist), pieces[1..])
  {
    hide Low, Bits, Goal, Pack, Width, PieceOK, ContentFields, TypeField, EndOf, Output;
    var p := pieces[0];
    var a, b := [TypeField(p, |pieces| == 1)], ContentFields(p, s.pos);
    var rest := Encode(pieces[1..], PieceEnd(p, s.pos), tail);
    OneWidth(a[0]);
    assert HoldsFields(input, s.pos, a + b, rest);
    hide Encode, HoldsFields;
    FieldsApart(input, s.pos, a, b, rest);
    FirstField(input, s.pos, a, Pack(b, rest));
    GoalStep(pieces, s.pos, s.hist);
  }

  /** LEN and NLEN, as one word. */
  lemma LengthWord(len: nat, rest: nat)
    requires len <= 65535
    ensures var word := Low(32, Pack(LenFields(len), rest)); LengthsMatch(word) && Low(16, word) == len
  {
    Power16();
    hide Pow2, Low, Shr, Put;
    var fs := LenFields(len);
    var x := Pack(fs, rest);
    TakeField(fs, rest);
    TakeField(fs[1..], rest);
    LowLow(16, 16, x);
  }

  /** Where the parts of a stored block lie. */
  lemma StoredParts(input: seq<Byte>, pos: nat, bytes: seq<Byte>, rest: nat)
    requires |bytes| <= 65535 && HoldsFields(input, pos + 3, ContentFields(StoredPiece(bytes), pos), rest)
    ensures var al := Aligned(pos + 3);
            HoldsFields(input, al, LenFields(|bytes|), Pack(ByteFields(bytes), rest))
            && HoldsFields(input, al + 32, ByteFields(bytes), rest)
            && PieceEnd(StoredPiece(bytes), pos) == al + 32 + 8 * |bytes|
  {
    hide Bits, Pack, Width, LenFields, ByteFields, HoldsFields, Pow2, Aligned;
    var a, b, c := PadFields(pos + 3), LenFields(|bytes|), ByteFields(bytes);
    FieldsApart(input, pos + 3, a + b, c, rest);
    FieldsApart(input, pos + 3, a, b, Pack(c, rest));
    PackAppend(a, b, 0);
    PackAppend(a + b, c, 0);
    BytesWidth(bytes);
  }

  /** A stored block up to its bytes. */
  lemma StoredRead(input: seq<Byte>, pos: nat, bytes: seq<Byte>, rest: nat)
    requires |bytes| <= 65535 && HoldsFields(input, pos + 3, ContentFields(StoredPiece(bytes), pos), rest)
    ensures var al := Aligned(pos + 3);
            var word := Low(32, Bits(input, al));
            LengthsMatch(word) && Low(16, word) == |bytes| && HoldsFields(input, al + 32, ByteFields(bytes), rest)
            && PieceEnd(StoredPiece(bytes), pos) == al + 32 + 8 * |bytes|
  {
    hide Low, Bits, Pack, Width, LengthsMatch, LenFields, ByteFields, HoldsFields, Pow2, Aligned, ContentFields;
    StoredParts(input, pos, bytes, rest);
    LengthWord(|bytes|, Pack(ByteFields(bytes), rest));
    WordThere(input, Aligned(pos + 3), |bytes|, Pack(ByteFields(bytes), rest));
  }

  lemma WordThere(input: seq<Byte>, pos: nat, len: nat, rest: nat)
    requires len <= 65535 && HoldsFields(input, pos, LenFields(len), rest)
    ensures Bits(input, pos) == Pack(LenFields(len), rest)
  {
  }

  lemma StoredHeaderTrack(input: seq<Byte>, tail: nat, s: Stream, goal: Stream, w: Ahead) returns (w': Ahead)
    requires OnTrack(input, tail, s, goal, w) && w.AtHeader? && |w.pieces| > 0 && w.pieces[0].StoredPiece?
    ensures OnTrack(input, tail, StreamStep(input, s), goal, w') && w'.pieces == w.pieces[1..] && !w'.InDynamic?
  {
    hide Low, Bits, Encode, Pack, Width, Goal, HoldsFields, ContentFields, LengthsMatch, Aligned;
    var bytes, pieces := w.pieces[0].bytes, w.pieces[1..];
    var rest := Encode(pieces, PieceEnd(w.pieces[0], s.pos), tail);
    HeaderRead(input, tail, s, goal, w.pieces);
    StoredRead(input, s.pos, bytes, rest);
    var t := StreamStep(input, s);
    var pos := Aligned(s.pos + 3) + 32;
    assert t == Stream(if |bytes| > 0 then Stored(|bytes|) else Header, |w.pieces| == 1, pos, s.hist);
    GoalStep(w.pieces, s.pos, s.hist);
    BytesWidth(bytes);
    if |bytes| == 0 {
      w' := AtHeader(pieces);
      assert s.hist + bytes == s.hist && bytes == [];
      NothingStored(input, pos, rest);
    } else {
      w' := InStored(bytes, pieces);
    }
  }

  lemma NothingStored(input: seq<Byte>, pos: nat, rest: nat)
    requires HoldsFields(input, pos, ByteFields([]), rest)
    ensures Bits(input, pos) == rest
  {
  }

  lemma CodedHeaderTrack(input: seq<Byte>, tail: nat, s: Stream, goal: Stream, w: Ahead) returns (w': Ahead)
    requires OnTrack(input, tail, s, goal, w) && w.AtHeader? && |w.pieces| > 0 && !w.pieces[0].StoredPiece?
    ensures OnTrack(input, tail, StreamStep(input, s), goal, w') && w'.pieces == w.pieces[1..]
    ensures if w.pieces[0].FixedPiece? then !w'.InDynamic?
            else w' == InDynamic(w.pieces[0].plan, w.pieces[0].tokens, w.pieces[1..])
  {
    hide Low, Bits, Encode, Pack, Width, Goal, HoldsFields, FixedCodes, TokensOK, PlanOK, BlockAhead, LengthsMatch,
         Aligned, Play, BodyFields, PlanFields, Encodable;
    HeaderRead(input, tail, s, goal, w.pieces);
    var p := w.pieces[0];
    w' := if p.FixedPiece? then InCoded(p.tokens, w.pieces[1..]) else InDynamic(p.plan, p.tokens, w.pieces[1..]);
  }

  /** The table entries are not enough for the code length code or for the two
      trees of the block. */
  ghost predicate PlanShort(p: Plan, memory: nat) {
    memory < Needed(p.bl, 7) || memory < Needed(p.codes.lit, 9) + Needed(p.codes.dst, 6)
  }

  /** They are not enough for some block in transmitted codes. */
  ghost predicate PiecesShort(pieces: seq<Piece>, memory: nat) {
    exists i :: 0 <= i < |pieces| && pieces[i].DynamicPiece? && PlanShort(pieces[i].plan, memory)
  }

  ghost predicate AheadShort(w: Ahead, memory: nat) {
    (w.InDynamic? && PlanShort(w.plan, memory)) || PiecesShort(w.pieces, memory)
  }

  lemma PlanMemory(input: seq<Byte>, pos: nat, p: Plan, rest: nat, memory: nat)
    requires PlanOK(p) && HoldsFields(input, pos, PlanFields(p), rest)
    ensures HeaderShort(input, pos, memory) <==> PlanShort(p, memory)
  {
    hide HoldsFields, Bits, Low, Spells, Accepted, BitLengths, RunOK, Width, ReadLengths, Pack, Needed, PlanFields;
    PlanSays(input, pos, p, rest);
    var all := p.codes.lit + p.codes.dst;
    assert all[..|p.codes.lit|] == p.codes.lit && all[|p.codes.lit|..] == p.codes.dst;
  }

  /** No block takes more than 11048 entries. */
  lemma PlanFits(p: Plan, memory: nat)
    requires PlanOK(p) && PlanShort(p, memory)
    ensures memory < TREE_ENTRIES
  {
    hide Spells, Accepted, RunOK, Needed;
    FewNeeded(p.bl);
    NeededBound(p.codes.lit, 9);
    NeededBound(p.codes.dst, 6);
  }

  lemma FirstShort(pieces: seq<Piece>, memory: nat)
    requires |pieces| > 0
    ensures PiecesShort(pieces, memory)
            <==> (pieces[0].DynamicPiece? && PlanShort(pieces[0].plan, memory)) || PiecesShort(pieces[1..], memory)
  {
    hide PlanShort;
    if i :| 0 <= i < |pieces| && pieces[i].DynamicPiece? && PlanShort(pieces[i].plan, memory) {
      if i > 0 { assert pieces[1..][i - 1] == pieces[i]; }
    }
    if i :| 0 <= i < |pieces[1..]| && pieces[1..][i].DynamicPiece? && PlanShort(pieces[1..][i].plan, memory) {
      assert pieces[i + 1] == pieces[1..][i];
    }
  }

  /** Every step stays on the way to the goal and has less ahead; it takes no
      memory but for the trees of a block. */
  lemma StaysOnTrack(input: seq<Byte>, tail: nat, s: Stream, goal: Stream, w: Ahead, memory: nat) returns (w': Ahead)
    requires OnTrack(input, tail, s, goal, w) && s != goal
    ensures OnTrack(input, tail, StreamStep(input, s), goal, w') && StateClean(input, s)
    ensures |w'.pieces| < |w.pieces| || (w'.pieces == w.pieces && Size(w') < Size(w))
    ensures AheadShort(w, memory) <==> ShortAt(input, memory, s) || AheadShort(w', memory)
  {
    hide StreamStep, Goal, Encode, Bits, BlockAhead, PieceOK, TokensOK, CleanAt, ReadPreamble, HeaderShort, PlanShort,
         PiecesShort;
    match w {
      case AtHeader(pieces) =>
        FirstShort(pieces, memory);
        if pieces[0].StoredPiece? {
          w' := StoredHeaderTrack(input, tail, s, goal, w);
        } else {
          w' := CodedHeaderTrack(input, tail, s, goal, w);
        }
      case InStored(_, _) => w' := StoredTrack(input, tail, s, goal, w);
      case InDynamic(_, _, _) => w' := DynamicTrack(input, tail, s, goal, w, memory);
      case InCoded(_, _) => w' := CodedTrack(input, tail, s, goal, w);
    }
  }

  lemma LeadsBefore(input: seq<Byte>, s: Stream, t: Stream)
    requires Leads(input, StreamStep(input, s), t)
    ensures Leads(input, s, t)
  {
    hide StreamStep;
    var n: nat :| StreamRun(input, StreamStep(input, s), n) == t;
    StreamSplit(input, s, 1, n);
    assert StreamRun(input, s, 0) == s;
    assert StreamRun(input, s, 1) == StreamStep(input, s);
  }

  /** The run reaches the goal. */
  lemma {:induction false} ReachesGoal(input: seq<Byte>, tail: nat, s: Stream, goal: Stream, w: Ahead)
    requires OnTrack(input, tail, s, goal, w)
    ensures Leads(input, s, goal)
    decreases |w.pieces|, Size(w)
  {
    hide StreamStep, OnTrack, Leads;
    if s == goal {
      LeadsStart(input, s);
    } else {
      var w' := StaysOnTrack(input, tail, s, goal, w, 0);
      ReachesGoal(input, tail, StreamStep(input, s), goal, w');
      LeadsBefore(input, s, goal);
    }
  }

  /** Every state of the run is clean. */
  lemma {:induction false} TrackClean(input: seq<Byte>, tail: nat, s: Stream, goal: Stream, w: Ahead, n: nat)
    requires OnTrack(input, tail, s, goal, w) && goal.phase == Finished
    ensures StateClean(input, StreamRun(input, s, n))
    decreases n
  {
    hide StreamStep, OnTrack, CleanAt, ReadPreamble, AheadShort, ShortAt, HeaderShort;
    if s == goal {
      RunGrows(input, s, 0, n);
      assert StreamRun(input, s, 0) == s;
    } else {
      var w' := StaysOnTrack(input, tail, s, goal, w, 0);
      assert StreamRun(input, s, 0) == s;
      if n > 0 {
        assert StreamRun(input, s, 1) == StreamStep(input, s);
        StreamSplit(input, s, 1, n - 1);
        TrackClean(input, tail, StreamStep(input, s), goal, w', n - 1);
      }
    }
  }

  lemma AtTheGoal(input: seq<Byte>, tail: nat, s: Stream, goal: Stream, w: Ahead, memory: nat)
    requires OnTrack(input, tail, s, goal, w) && goal.phase == Finished && s == goal
    ensures !AheadShort(w, memory) && !Starved(input, memory, s)
  {
    hide StreamStep, BlockAhead, Encode, Bits, Goal, TokensOK, HeaderShort, PlanShort, PieceOK;
    assert w == AtHeader([]);
    forall n: nat ensures StreamRun(input, s, n) == s {
      RunGrows(input, s, 0, n);
      assert StreamRun(input, s, 0) == s;
    }
  }

  /** The run is starved exactly by the blocks that are written. */
  lemma {:induction false} TrackStarved(input: seq<Byte>, tail: nat, s: Stream, goal: Stream, w: Ahead, memory: nat)
    requires OnTrack(input, tail, s, goal, w) && goal.phase == Finished
    ensures Starved(input, memory, s) <==> AheadShort(w, memory)
    decreases |w.pieces|, Size(w)
  {
    hide StreamStep, OnTrack, AheadShort, Starved, ShortAt;
    if s == goal {
      AtTheGoal(input, tail, s, goal, w, memory);
    } else {
      var w' := StaysOnTrack(input, tail, s, goal, w, memory);
      StarvedStep(input, memory, s);
      TrackStarved(input, tail, StreamStep(input, s), goal, w', memory);
    }
  }

  // ------------------------------------------------------------ main theorems

  /** The whole stream, before anything has been read. */
  function Origin(hist: seq<Byte>): Stream {
    Stream(Header, false, 0, hist)
  }

  lemma TrackBegins(input: seq<Byte>, pieces: seq<Piece>, tail: nat, hist: seq<Byte>)
    requires Encodable(pieces) && |pieces| > 0 && Number(input) == Encode(pieces, 0, tail)
    ensures OnTrack(input, tail, Origin(hist), Goal(pieces, 0, hist), AtHeader(pieces))
  {
    hide Encode, Goal, Number;
    assert Bits(input, 0) == Number(input);
  }

  /** An encoded stream decodes to its content and ends after its last block, if
      and only if the last block is not an empty stored one. */
  lemma DecodesIffClosed(input: seq<Byte>, pieces: seq<Piece>, tail: nat, hist: seq<Byte>)
    requires Encodable(pieces) && |pieces| > 0 && Number(input) == Encode(pieces, 0, tail)
    ensures EndsIn(input, Origin(hist), Stream(Finished, true, EndOf(pieces, 0), Output(pieces, hist)))
            <==> !EndsOpen(pieces)
  {
    hide Encode, EndOf, Output, StreamStep, OnTrack;
    TrackBegins(input, pieces, tail, hist);
    ReachesGoal(input, tail, Origin(hist), Goal(pieces, 0, hist), AtHeader(pieces));
    if EndsOpen(pieces) {
      NoEndAtHeader(input, Origin(hist), Goal(pieces, 0, hist), Output(pieces, hist));
    }
  }

  /** A stream that stands at a block header does not end there. */
  lemma NoEndAtHeader(input: seq<Byte>, s: Stream, t: Stream, hist: seq<Byte>)
    requires Leads(input, s, t) && t.phase == Header
    ensures !EndsIn(input, s, Stream(Finished, true, t.pos, hist))
  {
    hide StreamStep;
    var f := Stream(Finished, true, t.pos, hist);
    if EndsIn(input, s, f) {
      LeadsStep(input, s, t);
      OnTheWay(input, s, StreamStep(input, t), f);
      HeaderMoves(input, t);
    }
  }

  lemma HeaderMoves(input: seq<Byte>, s: Stream)
    requires s.phase == Header
    ensures StreamStep(input, s).phase == Broken || StreamStep(input, s).pos >= s.pos + 3
  {
    hide Low, Shr, Bits;
    AlignedAbove(s.pos + 3);
  }

  lemma EncodedIsClean(input: seq<Byte>, pieces: seq<Piece>, tail: nat, hist: seq<Byte>)
    requires Encodable(pieces) && |pieces| > 0 && !EndsOpen(pieces) && Number(input) == Encode(pieces, 0, tail)
    ensures StreamClean(input, Origin(hist))
    ensures forall memory: nat :: Starved(input, memory, Origin(hist)) <==> PiecesShort(pieces, memory)
  {
    hide Encode, EndOf, Output, StreamStep, OnTrack, Starved, PiecesShort;
    TrackBegins(input, pieces, tail, hist);
    var w := AtHeader(pieces);
    forall n: nat ensures StateClean(input, StreamRun(input, Origin(hist), n)) {
      TrackClean(input, tail, Origin(hist), Goal(pieces, 0, hist), w, n);
    }
    forall memory: nat ensures Starved(input, memory, Origin(hist)) <==> PiecesShort(pieces, memory) {
      TrackStarved(input, tail, Origin(hist), Goal(pieces, 0, hist), w, memory);
    }
  }

  // ------------------------------------------- what the window held does not matter

  /** Starting after `n` bytes, no match points back before the first of them. */
  predicate Inside(ts: seq<Token>, n: nat) {
    if |ts| == 0 then true
    else (ts[0].CopyToken? ==> 1 <= CopyDistance(ts[0]) <= n)
         && Inside(ts[1..], n + if ts[0].ByteToken? then 1 else CopyLength(ts[0]))
  }

  lemma {:induction false} CopyShift(first: seq<Byte>, h: seq<Byte>, len: nat, dist: nat)
    requires 1 <= dist <= |h|
    ensures CopyBack(first + h, len, dist) == first + CopyBack(h, len, dist)
  {
    if len > 0 { CopyShift(first, h, len - 1, dist); }
  }

  lemma {:induction false} PlayShift(first: seq<Byte>, ts: seq<Token>, h: seq<Byte>)
    requires Inside(ts, |h|)
    ensures Play(ts, first + h) == first + Play(ts, h)
    decreases |ts|
  {
    hide CopyLength, CopyDistance;
    if |ts| > 0 {
      var t := ts[0];
      if t.ByteToken? {
        assert first + h + [t.byte] == first + (h + [t.byte]);
      } else {
        CopyShift(first, h, CopyLength(t), CopyDistance(t));
      }
      PlayShift(first, ts[1..], PlayOne(t, h));
    }
  }

  /** No match points back before the beginning of the output, which has `h` so
      far. */
  predicate SelfContained(pieces: seq<Piece>, h: seq<Byte>) {
    if |pieces| == 0 then true
    else
      (!pieces[0].StoredPiece? ==> Inside(pieces[0].tokens, |h|))
      && SelfContained(pieces[1..], PieceOutput(pieces[0], h))
  }

  lemma {:induction false} WindowIrrelevant(first: seq<Byte>, pieces: seq<Piece>, h: seq<Byte>)
    requires SelfContained(pieces, h)
    ensures Output(pieces, first + h) == first + Output(pieces, h)
    decreases |pieces|
  {
    hide Inside, Play;
    if |pieces| > 0 {
      var p := pieces[0];
      if p.StoredPiece? {
        assert first + h + p.bytes == first + (h + p.bytes);
      } else {
        PlayShift(first, p.tokens, h);
      }
      WindowIrrelevant(first, pieces[1..], PieceOutput(p, h));
    }
  }

  /** A new inflater, with the fixed trees in the memory set aside for them, is
      given the whole input at once. */
  method InflateNew(input: seq<Byte>, window: array<Byte>, room: nat, memory: nat, junk: (nat, nat) -> Huft,
                    ghost f: Stream)
    returns (r: int, out: seq<Byte>, used: nat)
    requires window.Length == WSIZE && StreamClean(input, Origin(window[..])) && ComesTo(input, Origin(window[..]), f)
    requires f.pos + After(f) <= 8 * |input| && room + WSIZE >= |f.hist|
    modifies window
    ensures WSIZE <= |f.hist| && out <= f.hist[WSIZE..]
    ensures r == if Starved(input, memory, Origin(old(window[..]))) then Z_MEM_ERROR
                 else if f.phase == Finished then Z_STREAM_END else Z_DATA_ERROR
    ensures r == Z_STREAM_END ==> out == f.hist[WSIZE..] && 8 * used == Aligned(f.pos)
  {
    hide StreamStep, Holds, TreesOK, StreamClean, Leads, FixedCodes, LensOK, BordersRead, BitsTable, LeadsOn,
         Accepted, ReadPreamble, ModeOK, Clean, Reaches, Low, Bits, Affords, HeaderShort, Starved;
    var ok, fixed, left := InflateTreesFixed(FIXEDH, junk);
    var inp := new BitReader(input, |input|);
    var win := new Window(window, room, false);
    var z := new Inflater(inp, win, fixed, memory, junk);
    assert z.origin == Origin(old(window[..]));
    r := InflateWhole(z, f);
    out, used := win.out, inp.p;
  }

  /** Decoding undoes encoding: bytes written as blocks in any way, stored, as
      literals and matches in the fixed codes or in any other codes, come back,
      and all of the stream but the trailer has been read.  Memory runs out
      exactly when some block in transmitted codes needs more than there is.
      When no match points back before the beginning, what the window held does
      not matter. */
  method RoundTrip(pieces: seq<Piece>, trailer: seq<Byte>, window: array<Byte>, room: nat, memory: nat,
                   junk: (nat, nat) -> Huft)
    returns (r: int, out: seq<Byte>, used: nat)
    requires Encodable(pieces) && |pieces| > 0 && !EndsOpen(pieces)
    requires |trailer| >= 8 && window.Length == WSIZE && room + WSIZE >= |Output(pieces, window[..])|
    modifies window
    ensures r == if PiecesShort(pieces, memory) then Z_MEM_ERROR else Z_STREAM_END
    ensures r == Z_STREAM_END ==>
              old(window[..]) + out == Output(pieces, old(window[..])) && used == StreamBytes(pieces)
    ensures r == Z_STREAM_END && SelfContained(pieces, []) ==> out == Output(pieces, [])
  {
    hide Encode, EndOf, Output, StreamStep, Encodable, Holds, TreesOK, StreamClean, Number, Leads, SelfContained,
         Starved, PiecesShort;
    var input := EncodeBytes(pieces, trailer);
    ghost var hist := window[..];
    EncodedIsClean(input, pieces, Number(trailer), hist);
    DecodesIffClosed(input, pieces, Number(trailer), hist);
    AlignedAbove(EndOf(pieces, 0));
    r, out, used := InflateNew(input, window, room, memory, junk,
      Stream(Finished, true, EndOf(pieces, 0), Output(pieces, hist)));
    WithWindow(pieces, hist);
  }

  /** A round trip that runs out of memory has fewer than 11048 entries. */
  lemma ShortPieces(pieces: seq<Piece>, memory: nat)
    requires Encodable(pieces) && PiecesShort(pieces, memory)
    ensures memory < TREE_ENTRIES
  {
    hide PlanShort, PlanOK, TokensOK;
    var i :| 0 <= i < |pieces| && pieces[i].DynamicPiece? && PlanShort(pieces[i].plan, memory);
    PlanFits(pieces[i].plan, memory);
  }

  /** The window's bytes come before the output, and do not matter to bytes that
      need none of them. */
  lemma WithWindow(pieces: seq<Piece>, hist: seq<Byte>)
    ensures |hist| <= |Output(pieces, hist)| && hist + Output(pieces, hist)[|hist|..] == Output(pieces, hist)
    ensures SelfContained(pieces, []) ==> Output(pieces, hist)[|hist|..] == Output(pieces, [])
  {
    hide Output, SelfContained;
    OutputExtends(pieces, hist);
    if SelfContained(pieces, []) {
      WindowIrrelevant(hist, pieces, []);
      assert hist + [] == hist;
    }
  }

  // ------------------------------------------------------- a reserved length code

  /** A fixed block that begins with the reserved code 286: the program takes it
      for a match of no bytes. */
  lemma ReservedInput(hist: seq<Byte>)
    ensures var input: seq<Byte> := [0x1B, 0x03];
            var s := StreamStep(input, Origin(hist));
            var str := Bits(input, s.pos);
            s.phase == Coded(FixedCodes()) && SymbolAt(FixedLit(), str) == 286
            && Extended(Canon(LITLEN, FixedLit(), str), str) == 0 && !StreamClean(input, Origin(hist))
  {
    var input: seq<Byte> := [0x1B, 0x03];
    ReservedBits();
    hide Pow2, Low, Shr, Rev, Number, Kraft, FixedLit, FixedDist, StreamClean;
    ReservedLength(FixedLit(), Bits(input, 3));
    LengthEntries(286);
    Unclean(input, Origin(hist));
  }

  lemma Unclean(input: seq<Byte>, s: Stream)
    requires !StateClean(input, StreamStep(input, s))
    ensures !StreamClean(input, s)
  {
    hide StreamStep, StateClean;
    assert StreamRun(input, s, 0) == s;
    assert StreamRun(input, s, 1) == StreamStep(input, s);
  }

  lemma ReservedBits()
    ensures Low(3, Bits([0x1B, 0x03], 0)) == 3 && SymbolAt(FixedLit(), Bits([0x1B, 0x03], 3)) == 286
    ensures |FixedLit()| == 288
  {
    var input: seq<Byte> := [0x1B, 0x03];
    TwoBytes(0x1B, 0x03);
    var f := CodeField(FixedLit(), 286);
    ReservedField();
    SmallShifts();
    hide CodeField, FixedLit, Kraft, Number, Shr, Low;
    FixedKraft();
    FixedLengths();
    ReadCode(FixedLit(), 286, 0);
  }

  lemma TwoBytes(a: Byte, b: Byte)
    ensures Number([a, b]) == a + 256 * b
  {
    var t: seq<Byte> := [b];
    assert t[1..] == [] && Number(t) == b + 256 * Number(t[1..]);
    var s: seq<Byte> := [a, b];
    assert s[1..] == t && Number(s) == a + 256 * Number(t);
  }

  lemma SmallShifts()
    ensures Shr(0, 795) == 795 && Low(3, 795) == 3 && Shr(3, 795) == 99 && Put(99, 8, 0) == 99
  {
  }

  /** Code 11000110, first bit lowest. */
  lemma ReservedField()
    ensures CodeField(FixedLit(), 286) == Field(99, 8) && FixedLit()[286] == 8
  {
    FixedCodeValues(286);
    assert Rev(8, 0xC6) == 99 by { SmallReversal(); }
  }

  lemma SmallReversal()
    ensures Rev(8, 0xC6) == 99
  {
  }

  /** A dynamic block without any code length code: the program goes on and reads
      its first code length. */
  lemma EmptyCodeInput(hist: seq<Byte>)
    ensures var input: seq<Byte> := [0x05, 0x00, 0x00, 0x00];
            StreamStep(input, Origin(hist)) == Stream(Dynamic, true, 3, hist) && ReadPreamble(input, 3) == Undecided
  {
    var input: seq<Byte> := [0x05, 0x00, 0x00, 0x00];
    FourBytes(input);
    FiveBits();
    BitsSkip(input, 0, 3);
    BitsSkip(input, 3, 14);
    hide Number, Shr, Low, Bits, ReadPreamble;
    ZeroBits(14);
    NoBitLengths(4);
    EmptyCodeUndecided(input, 3);
  }

  lemma FourBytes(s: seq<Byte>)
    requires s == [0x05, 0x00, 0x00, 0x00]
    ensures Number(s) == 5 && Bits(s, 0) == 5
  {
    assert s[1..] == [0x00, 0x00, 0x00] && s[1..][1..] == [0x00, 0x00] && s[1..][1..][1..] == [0x00];
    assert s[1..][1..][1..][1..] == [];
    assert Number(s[1..][1..][1..]) == 0;
    assert Number(s[1..][1..]) == 0;
    assert Number(s[1..]) == 0;
  }

  lemma FiveBits()
    ensures Low(3, 5) == 5 && Shr(3, 5) == 0
  {
  }

  lemma {:induction false} ZeroBits(n: nat)
    ensures Low(n, 0) == 0 && Shr(n, 0) == 0
  {
    if n > 0 { ZeroBits(n - 1); }
  }

  lemma NoBitLengths(n: nat)
    ensures AllZero(BitLengths(n, 0))
  {
    forall s | 0 <= s < 19 ensures BitLengths(n, 0)[s] == 0 {
      Ranked(s);
      ZeroBits(3 * RANK[s]);
      ZeroBits(3);
    }
  }

  function Literals(bytes: seq<Byte>): seq<Token> {
    seq(|bytes|, i requires 0 <= i < |bytes| => ByteToken(bytes[i]))
  }

  /** Any bytes can be written as literals in the fixed codes. */
  lemma LiteralsEncodable(bytes: seq<Byte>)
    ensures var pieces := [FixedPiece(Literals(bytes))];
            Encodable(pieces) && !EndsOpen(pieces) && SelfContained(pieces, []) && Output(pieces, []) == bytes
  {
    hide Kraft, Pow2;
    FixedKraft();
    LiteralsPlay(bytes, []);
    assert [] + bytes == bytes;
    var ts := Literals(bytes);
    assert TokensOK(FixedCodes(), ts);
    assert [FixedPiece(ts)][1..] == [];
    assert Output([FixedPiece(ts)], []) == Output([], Play(ts, []));
  }

  lemma {:induction false} LiteralsPlay(bytes: seq<Byte>, h: seq<Byte>)
    ensures Play(Literals(bytes), h) == h + bytes && Inside(Literals(bytes), |h|)
    decreases |bytes|
  {
    if |bytes| == 0 {
      assert h + bytes == h;
    } else {
      LiteralsPlay(bytes[1..], h + [bytes[0]]);
      assert Literals(bytes)[1..] == Literals(bytes[1..]);
      assert h + [bytes[0]] + bytes[1..] == h + bytes;
    }
  }

  lemma {:induction false} OutputExtends(pieces: seq<Piece>, h: seq<Byte>)
    ensures h <= Output(pieces, h)
    decreases |pieces|
  {
    hide Play;
    if |pieces| > 0 {
      if !pieces[0].StoredPiece? { PlayExtends(pieces[0].tokens, h); }
      OutputExtends(pieces[1..], PieceOutput(pieces[0], h));
    }
  }

  lemma {:induction false} PlayExtends(ts: seq<Token>, h: seq<Byte>)
    ensures h <= Play(ts, h)
    decreases |ts|
  {
    if |ts| > 0 { PlayExtends(ts[1..], PlayOne(ts[0], h)); }
  }
}
