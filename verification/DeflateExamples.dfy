// Streams byte by byte, and what they decode to.
module DeflateExamples {
  import opened Words
  import opened Canonical
  import opened HuffmanTables
  import opened BitStream
  import opened InflateSpec
  import opened DynamicSpec
  import opened BlocksSpec
  import opened InflateComplete
  import opened FixedTables
  import opened DeflateFormat
  import opened Deflate

  lemma NumberStep(b: Byte, rest: seq<Byte>)
    ensures Number([b] + rest) == b + 256 * Number(rest)
  {
    assert ([b] + rest)[1..] == rest;
  }

  lemma NumberFour(a: Byte, b: Byte, c: Byte, d: Byte, rest: seq<Byte>)
    ensures Number([a, b, c, d] + rest) == a + 256 * b + 65536 * c + 0x100_0000 * d + 0x1_0000_0000 * Number(rest)
  {
    hide Number;
    NumberStep(d, rest);
    NumberStep(c, [d] + rest);
    NumberStep(b, [c] + ([d] + rest));
    NumberStep(a, [b] + ([c] + ([d] + rest)));
    assert [a, b, c, d] + rest == [a] + ([b] + ([c] + ([d] + rest)));
  }

  lemma NumberNone()
    ensures Number([]) == 0
  {
  }

  /** A stream of one block, with nothing after it. */
  lemma OneBlock(p: Piece, input: seq<Byte>, hist: seq<Byte>)
    requires PieceOK(p) && p != StoredPiece([]) && Number(input) == Pack(PieceFields(p, true, 0), 0)
    ensures EndsIn(input, Origin(hist), Stream(Finished, true, PieceEnd(p, 0), PieceOutput(p, hist)))
  {
    hide PieceOK, PieceFields, PieceEnd, Pack, Number, StreamStep, ComesTo, PieceOutput;
    var pieces := [p];
    assert pieces[1..] == [];
    NothingAfter(PieceEnd(p, 0));
    NoPieces(PieceEnd(p, 0), PieceOutput(p, hist));
    DecodesIffClosed(input, pieces, 0, hist);
  }

  /** A block ends where its fields do. */
  lemma EndIs(p: Piece, fs: seq<Field>)
    requires PieceOK(p) && PieceFields(p, true, 0) == fs
    ensures PieceEnd(p, 0) == Width(fs)
  {
    hide PieceOK, ContentFields;
    PackWidth(TypeField(p, true), ContentFields(p, 0));
  }

  lemma PackFrom(fs: seq<Field>, i: nat, f: Field)
    requires i < |fs| && fs[i] == f
    ensures Pack(fs[i..], 0) == f.v + Pack(fs[i + 1..], 0) * Pow2(f.k) && Width(fs[i..]) == f.k + Width(fs[i + 1..])
  {
    PackWidth(f, fs[i + 1..]);
    assert [f] + fs[i + 1..] == fs[i..];
  }

  lemma NothingAfter(pos: nat)
    ensures Encode([], pos, 0) == 0
  {
    hide Pow2, Aligned;
    AlignedAbove(pos);
  }

  lemma NoPieces(pos: nat, hist: seq<Byte>)
    ensures EndOf([], pos) == pos && Output([], hist) == hist
  {
  }

  // ---------------------------------------------------------- a fixed block

  /** The letter a, and three bytes repeated from one byte back. */
  function FourTokens(): seq<Token> {
    [ByteToken(0x61), CopyToken(0, 0, 0, 0)]
  }

  lemma FourCodes()
    ensures |FixedLit()| == 288 && |FixedDist()| == 30
    ensures CodeField(FixedLit(), 97) == Field(137, 8) && CodeField(FixedLit(), 257) == Field(64, 7)
    ensures CodeField(FixedLit(), 256) == Field(0, 7) && CodeField(FixedDist(), 0) == Field(0, 5)
  {
    FixedCodeValues(97);
    FixedCodeValues(257);
    FixedCodeValues(256);
    FirstDistance();
    hide Code, Kraft;
    assert Rev(8, 145) == 137;
    assert Rev(7, 1) == 64;
    assert Rev(7, 0) == 0;
    assert Rev(5, 0) == 0;
  }

  lemma FirstDistance()
    ensures Code(FixedDist(), 0) == 0
  {
    hide Count;
    var b := FixedDist();
    forall k: nat | 0 < k < 5 ensures Count(b, k) == 0 { NoneOf(b, k); }
    assert b[..0] == [];
    NoneOf([], 5);
    NothingBeyond(Counts(b), 4);
  }

  lemma {:induction false} NothingBeyond(c: seq<nat>, k: nat)
    requires k < |c| && forall j :: 0 < j <= k ==> c[j] == 0
    ensures Beyond(c, k) == 0
  {
    if k > 0 { NothingBeyond(c, k - 1); }
  }

  lemma {:induction false} NoneOf(b: seq<nat>, k: nat)
    requires k !in b
    ensures Count(b, k) == 0
  {
    if |b| > 0 { NoneOf(b[..|b| - 1], k); }
  }

  lemma FourOK()
    ensures PieceOK(FixedPiece(FourTokens())) && TokensOK(FixedCodes(), []) && TokensOK(FixedCodes(), FourTokens()[1..])
  {
    hide Kraft;
    FixedKraft();
    SmallPowers();
    hide Pow2;
  }

  lemma FourFields()
    requires PieceOK(FixedPiece(FourTokens()))
    ensures PieceFields(FixedPiece(FourTokens()), true, 0)
            == [Field(3, 3), Field(137, 8), Field(64, 7), Field(0, 0), Field(0, 5), Field(0, 0), Field(0, 7)]
  {
    FourOK();
    hide PieceOK, TokensOK, CodeField, FixedLit, FixedDist, Kraft;
    FourCodes();
    var c, ts := FixedCodes(), FourTokens();
    assert ts[1..] == [ts[1]] && ts[1..][1..] == [];
    assert BodyFields(c, []) == [Field(0, 7)];
  }

  lemma PackWidth(f: Field, fs: seq<Field>)
    ensures Pack([f] + fs, 0) == f.v + Pack(fs, 0) * Pow2(f.k) && Width([f] + fs) == f.k + Width(fs)
  {
    assert ([f] + fs)[1..] == fs;
  }

  lemma FourPacked()
    ensures Pack([Field(3, 3), Field(137, 8), Field(64, 7), Field(0, 0), Field(0, 5), Field(0, 0), Field(0, 7)],
            0) == 132171
    ensures Width([Field(3, 3), Field(137, 8), Field(64, 7), Field(0, 0), Field(0, 5), Field(0, 0), Field(0, 7)]) == 30
  {
    assert Pack([], 0) == 0 && Width([]) == 0;
    SmallPowers();
    hide Pack, Width, Pow2;
    PackWidth(Field(0, 7), []);
    assert [Field(0, 7)] + [] == [Field(0, 7)];
    PackWidth(Field(0, 0), [Field(0, 7)]);
    PackWidth(Field(0, 5), [Field(0, 0), Field(0, 7)]);
    PackWidth(Field(0, 0), [Field(0, 5), Field(0, 0), Field(0, 7)]);
    var d := [Field(0, 0), Field(0, 5), Field(0, 0), Field(0, 7)];
    PackWidth(Field(64, 7), d);
    PackWidth(Field(137, 8), [Field(64, 7)] + d);
    PackWidth(Field(3, 3), [Field(137, 8)] + ([Field(64, 7)] + d));
  }

  /** The bytes 4B 04 02 00 are four letters a. */
  lemma FourLetters(hist: seq<Byte>)
    ensures EndsIn([0x4B, 0x04, 0x02, 0x00], Origin(hist),
                   Stream(Finished, true, 30, hist + [0x61, 0x61, 0x61, 0x61]))
  {
    hide PieceOK, PieceFields, Pack, Number, ComesTo, FourTokens;
    var input: seq<Byte> := [0x4B, 0x04, 0x02, 0x00];
    var p := FixedPiece(FourTokens());
    FourOK();
    FourFields();
    FourPacked();
    FourOutput(hist);
    FourEnd();
    NumberFour(0x4B, 0x04, 0x02, 0x00, []);
    NumberNone();
    assert input + [] == input;
    OneBlock(p, input, hist);
  }

  lemma FourEnd()
    requires PieceOK(FixedPiece(FourTokens()))
    ensures PieceEnd(FixedPiece(FourTokens()), 0) == 30
  {
    hide PieceOK, PieceFields, PieceEnd, FourTokens;
    FourFields();
    FourPacked();
    EndIs(FixedPiece(FourTokens()),
      [Field(3, 3), Field(137, 8), Field(64, 7), Field(0, 0), Field(0, 5), Field(0, 0), Field(0, 7)]);
  }

  lemma PlayTwo(t: Token, u: Token, hist: seq<Byte>)
    ensures Play([t, u], hist) == PlayOne(u, PlayOne(t, hist))
  {
    assert [t, u][1..] == [u] && [u][1..] == [];
    assert Play([u], PlayOne(t, hist)) == Play([], PlayOne(u, PlayOne(t, hist)));
  }

  lemma FourOutput(hist: seq<Byte>)
    ensures PieceOutput(FixedPiece(FourTokens()), hist) == hist + [0x61, 0x61, 0x61, 0x61]
  {
    var ts := FourTokens();
    var h := hist + [0x61];
    assert CopyBack(h, 1, 1) == h + [0x61];
    assert CopyBack(h, 2, 1) == h + [0x61] + [0x61];
    assert CopyBack(h, 3, 1) == h + [0x61] + [0x61] + [0x61];
    assert CPLENS[0] == 3 && CPDIST[0] == 1;
    var four := hist + [0x61, 0x61, 0x61, 0x61];
    assert PlayOne(ts[1], h) == CopyBack(h, 3, 1) == four;
    PlayTwo(ts[0], ts[1], hist);
  }

  // ---------------------------------------------------------- a stored block

  lemma LetterFields()
    ensures ByteFields([0x61, 0x62, 0x63]) == [Field(0x61, 8), Field(0x62, 8), Field(0x63, 8)]
  {
    var bytes: seq<Byte> := [0x61, 0x62, 0x63];
    assert bytes[1..] == [0x62, 0x63] && bytes[1..][1..] == [0x63] && bytes[1..][1..][1..] == [];
    assert ByteFields([]) == [];
    assert ByteFields([0x63]) == [Field(0x63, 8)];
    assert ByteFields([0x62, 0x63]) == [Field(0x62, 8), Field(0x63, 8)];
  }

  lemma StoredFields()
    ensures PieceOK(StoredPiece([0x61, 0x62, 0x63]))
    ensures PieceFields(StoredPiece([0x61, 0x62, 0x63]), true, 0)
            == [Field(1, 3), Field(0, 5), Field(3, 16), Field(65532, 16), Field(0x61, 8), Field(0x62, 8),
              Field(0x63, 8)]
  {
    LetterFields();
    assert Aligned(3) == 8;
    hide ByteFields, Aligned;
  }

  lemma StoredPacked()
    ensures var fs := [Field(1, 3), Field(0, 5), Field(3, 16), Field(65532, 16), Field(0x61, 8), Field(0x62, 8),
                       Field(0x63, 8)];
            Pack(fs, 0) == 0x636261fffc000301 && Width(fs) == 64
  {
    assert Pack([], 0) == 0 && Width([]) == 0;
    SmallPowers();
    Power16();
    hide Pack, Width, Pow2;
    var d := [Field(0x61, 8), Field(0x62, 8), Field(0x63, 8)];
    PackWidth(Field(0x63, 8), []);
    assert [Field(0x63, 8)] + [] == [Field(0x63, 8)];
    PackWidth(Field(0x62, 8), [Field(0x63, 8)]);
    PackWidth(Field(0x61, 8), [Field(0x62, 8), Field(0x63, 8)]);
    PackWidth(Field(65532, 16), d);
    PackWidth(Field(3, 16), [Field(65532, 16)] + d);
    PackWidth(Field(0, 5), [Field(3, 16)] + ([Field(65532, 16)] + d));
    PackWidth(Field(1, 3), [Field(0, 5)] + ([Field(3, 16)] + ([Field(65532, 16)] + d)));
    assert [Field(1, 3)] + ([Field(0, 5)] + ([Field(3, 16)] + ([Field(65532, 16)] + d))) ==
           [Field(1, 3), Field(0, 5), Field(3, 16), Field(65532, 16), Field(0x61, 8), Field(0x62, 8), Field(0x63, 8)];
  }

  lemma StoredEnd()
    ensures PieceOK(StoredPiece([0x61, 0x62, 0x63])) && PieceEnd(StoredPiece([0x61, 0x62, 0x63]), 0) == 64
  {
    hide PieceOK, PieceFields, PieceEnd;
    StoredFields();
    StoredPacked();
    EndIs(StoredPiece([0x61, 0x62, 0x63]),
      [Field(1, 3), Field(0, 5), Field(3, 16), Field(65532, 16), Field(0x61, 8), Field(0x62, 8), Field(0x63, 8)]);
  }

  /** The bytes 01 03 00 FC FF and then a, b, c are those three letters. */
  lemma ThreeLetters(hist: seq<Byte>)
    ensures EndsIn([0x01, 0x03, 0x00, 0xFC, 0xFF, 0x61, 0x62, 0x63], Origin(hist),
                   Stream(Finished, true, 64, hist + [0x61, 0x62, 0x63]))
  {
    hide PieceOK, PieceFields, Pack, Number, ComesTo;
    var input: seq<Byte> := [0x01, 0x03, 0x00, 0xFC, 0xFF, 0x61, 0x62, 0x63];
    StoredFields();
    StoredPacked();
    StoredEnd();
    NumberNone();
    NumberFour(0xFF, 0x61, 0x62, 0x63, []);
    NumberFour(0x01, 0x03, 0x00, 0xFC, input[4..]);
    assert input[4..] == [0xFF, 0x61, 0x62, 0x63] + [] && input == [0x01, 0x03, 0x00, 0xFC] + input[4..];
    OneBlock(StoredPiece([0x61, 0x62, 0x63]), input, hist);
  }
}
