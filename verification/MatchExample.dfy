// A match whose length and distance both have extra bits, byte by byte.
module MatchExample {
  import opened Words
  import opened Canonical
  import opened BitStream
  import opened InflateSpec
  import opened BlocksSpec
  import opened InflateComplete
  import opened FixedTables
  import opened DeflateFormat
  import opened Deflate
  import opened DeflateExamples

  /** Five letters, and twelve bytes repeated from five bytes back. */
  const TOKENS: seq<Token> :=
    [ByteToken(0x61), ByteToken(0x62), ByteToken(0x63), ByteToken(0x64), ByteToken(0x65), CopyToken(8, 1, 4, 0)]

  const FIELDS: seq<Field> :=
    [Field(3, 3), Field(137, 8), Field(73, 8), Field(201, 8), Field(41, 8), Field(169, 8), Field(72, 7), Field(1, 1),
     Field(4, 5), Field(0, 1), Field(0, 7)]

  lemma RevStep(n: nat, x: nat)
    ensures Rev(n + 1, x) == (if x % 2 == 1 then Pow2(n) else 0) + Rev(n, x / 2) && Rev(0, x) == 0
  {
  }

  /** Eight bits, the lowest first. */
  lemma RevEight(b: nat, x: nat)
    requires b == x / 2 / 2 / 2 / 2
    ensures Rev(4, b) == 8 * (b % 2) + 4 * (b / 2 % 2) + 2 * (b / 2 / 2 % 2) + b / 2 / 2 / 2 % 2
    ensures Rev(8, x) == 128 * (x % 2) + 64 * (x / 2 % 2) + 32 * (x / 2 / 2 % 2) + 16 * (x / 2 / 2 / 2 % 2) + Rev(4, b)
  {
    SmallPowers();
    hide Rev, Pow2;
    RevStep(7, x);
    RevStep(6, x / 2);
    RevStep(5, x / 2 / 2);
    RevStep(4, x / 2 / 2 / 2);
    RevStep(3, b);
    RevStep(2, b / 2);
    RevStep(1, b / 2 / 2);
    RevStep(0, b / 2 / 2 / 2);
  }

  lemma Reversals()
    ensures Rev(8, 145) == 137 && Rev(8, 146) == 73 && Rev(8, 147) == 201 && Rev(8, 148) == 41 && Rev(8, 149) == 169
    ensures Rev(7, 9) == 72 && Rev(7, 0) == 0 && Rev(5, 4) == 4
  {
    ShortReversals();
    hide Rev;
    RevEight(9, 145);
    RevEight(9, 146);
    RevEight(9, 147);
    RevEight(9, 148);
    RevEight(9, 149);
  }

  lemma ShortReversals()
    ensures Rev(7, 9) == 72 && Rev(7, 0) == 0 && Rev(5, 4) == 4
  {
    SmallPowers();
    hide Rev, Pow2;
    RevStep(6, 9);
    RevStep(5, 4);
    RevStep(4, 2);
    RevStep(3, 1);
    RevStep(2, 0);
    RevStep(1, 0);
    RevStep(0, 0);
    RevStep(3, 0);
    RevStep(4, 0);
    RevStep(5, 0);
    RevStep(6, 0);
    RevStep(4, 4);
    RevStep(3, 2);
    RevStep(2, 1);
  }

  lemma LetterCodes()
    ensures |FixedLit()| == 288
    ensures CodeField(FixedLit(), 97) == Field(137, 8) && CodeField(FixedLit(), 98) == Field(73, 8)
    ensures CodeField(FixedLit(), 99) == Field(201, 8) && CodeField(FixedLit(), 100) == Field(41, 8)
    ensures CodeField(FixedLit(), 101) == Field(169, 8)
  {
    Reversals();
    hide Code, Kraft, Rev;
    FixedCodeValues(97);
    FixedCodeValues(98);
    FixedCodeValues(99);
    FixedCodeValues(100);
    FixedCodeValues(101);
  }

  lemma MatchCodes()
    ensures |FixedLit()| == 288 && |FixedDist()| == 30
    ensures CodeField(FixedLit(), 265) == Field(72, 7) && CodeField(FixedLit(), 256) == Field(0, 7)
    ensures CodeField(FixedDist(), 4) == Field(4, 5)
  {
    Reversals();
    FifthDistance();
    hide Code, Kraft, Rev;
    FixedCodeValues(265);
    FixedCodeValues(256);
  }

  lemma FifthDistance()
    ensures Code(FixedDist(), 4) == 4
  {
    var b := FixedDist();
    assert b[..0] == [];
    CountRun(b, 0, 4, 5, 5);
    FirstDistance();
    hide Count;
    NoneOf([], 5);
  }

  lemma AllOK()
    ensures PieceOK(FixedPiece(TOKENS))
    ensures forall i :: 0 <= i <= 6 ==> TokensOK(FixedCodes(), TOKENS[i..])
    ensures forall i :: 0 <= i < 6 ==> TokenOK(FixedCodes(), TOKENS[i])
  {
    FixedKraft();
    SmallPowers();
    hide Kraft, Pow2;
    var c := FixedCodes();
    forall i | 0 <= i < 6 ensures TokenOK(c, TOKENS[i]) { }
    assert TokensOK(c, TOKENS);
    hide TokenOK;
  }

  /** The fields of token `i` are those from place `a` to place `b`. */
  lemma TokenStep(c: Codes, ts: seq<Token>, fs: seq<Field>, i: nat, a: nat, b: nat)
    requires i < |ts| && TokensOK(c, ts[i..]) && TokensOK(c, ts[i + 1..]) && TokenOK(c, ts[i])
    requires a <= b <= |fs| && TokenFields(c, ts[i]) == fs[a..b] && BodyFields(c, ts[i + 1..]) == fs[b..]
    ensures BodyFields(c, ts[i..]) == fs[a..]
  {
    hide TokensOK, TokenOK, TokenFields;
    assert ts[i..][1..] == ts[i + 1..];
    assert fs[a..b] + fs[b..] == fs[a..];
  }

  lemma EachToken()
    requires forall i :: 0 <= i < 6 ==> TokenOK(FixedCodes(), TOKENS[i])
    ensures var c := FixedCodes();
            TokenFields(c, TOKENS[0]) == FIELDS[1..2] && TokenFields(c, TOKENS[1]) == FIELDS[2..3]
            && TokenFields(c, TOKENS[2]) == FIELDS[3..4] && TokenFields(c, TOKENS[3]) == FIELDS[4..5]
            && TokenFields(c, TOKENS[4]) == FIELDS[5..6] && TokenFields(c, TOKENS[5]) == FIELDS[6..10]
  {
    LetterCodes();
    MatchCodes();
    hide CodeField, FixedLit, FixedDist, TokenOK;
  }

  lemma EndField()
    requires TokensOK(FixedCodes(), [])
    ensures BodyFields(FixedCodes(), []) == FIELDS[10..] && TOKENS[6..] == [] && TOKENS[0..] == TOKENS
  {
    MatchCodes();
    hide CodeField, FixedLit, FixedDist, TokensOK;
  }

  lemma LaterBody()
    requires forall i :: 0 <= i <= 6 ==> TokensOK(FixedCodes(), TOKENS[i..])
    requires forall i :: 0 <= i < 6 ==> TokenOK(FixedCodes(), TOKENS[i])
    ensures BodyFields(FixedCodes(), TOKENS[3..]) == FIELDS[4..]
  {
    EndField();
    EachToken();
    assert |TOKENS| == 6 && |FIELDS| == 11;
    hide FixedCodes, TOKENS, FIELDS, TokensOK, TokenOK, TokenFields, BodyFields;
    TokenStep(FixedCodes(), TOKENS, FIELDS, 5, 6, 10);
    TokenStep(FixedCodes(), TOKENS, FIELDS, 4, 5, 6);
    TokenStep(FixedCodes(), TOKENS, FIELDS, 3, 4, 5);
  }

  lemma AllBody()
    requires forall i :: 0 <= i <= 6 ==> TokensOK(FixedCodes(), TOKENS[i..])
    requires forall i :: 0 <= i < 6 ==> TokenOK(FixedCodes(), TOKENS[i])
    ensures TOKENS[0..] == TOKENS && BodyFields(FixedCodes(), TOKENS) == FIELDS[1..]
  {
    LaterBody();
    EachToken();
    assert |TOKENS| == 6 && |FIELDS| == 11 && TOKENS[0..] == TOKENS;
    hide FixedCodes, TOKENS, FIELDS, TokensOK, TokenOK, TokenFields, BodyFields;
    TokenStep(FixedCodes(), TOKENS, FIELDS, 2, 3, 4);
    TokenStep(FixedCodes(), TOKENS, FIELDS, 1, 2, 3);
    TokenStep(FixedCodes(), TOKENS, FIELDS, 0, 1, 2);
  }

  lemma AllFields()
    requires PieceOK(FixedPiece(TOKENS))
    ensures PieceFields(FixedPiece(TOKENS), true, 0) == FIELDS
  {
    AllOK();
    assert TypeField(FixedPiece(TOKENS), true) == Field(3, 3);
    assert [FIELDS[0]] + FIELDS[1..] == FIELDS;
    hide TokensOK, PieceOK, TokenOK, FixedCodes, BodyFields;
    AllBody();
  }

  lemma LaterPacked()
    ensures Pack(FIELDS[6..], 0) == 1224 && Width(FIELDS[6..]) == 21
  {
    SmallPowers();
    assert FIELDS[11..] == [] && Pack([], 0) == 0 && Width([]) == 0;
    hide Pack, Width, Pow2;
    PackFrom(FIELDS, 10, Field(0, 7));
    PackFrom(FIELDS, 9, Field(0, 1));
    PackFrom(FIELDS, 8, Field(4, 5));
    PackFrom(FIELDS, 7, Field(1, 1));
    PackFrom(FIELDS, 6, Field(72, 7));
  }

  lemma PackLetter(fs: seq<Field>, i: nat, v: nat, x: nat)
    requires i < |fs| && fs[i] == Field(v, 8) && Pack(fs[i + 1..], 0) == x
    ensures Pack(fs[i..], 0) == v + 256 * x && Width(fs[i..]) == 8 + Width(fs[i + 1..])
  {
    PackFrom(fs, i, Field(v, 8));
    SmallPowers();
  }

  lemma AllPacked()
    ensures Pack(FIELDS, 0) == 0x2645494e4a4c4b && Width(FIELDS) == 64
  {
    LaterPacked();
    assert Pow2(3) == 8;
    assert FIELDS[0..] == FIELDS && |FIELDS| == 11;
    hide Pack, Width, Pow2;
    PackLetter(FIELDS, 5, 169, 1224);
    PackLetter(FIELDS, 4, 41, 313513);
    PackLetter(FIELDS, 3, 201, 80259369);
    PackLetter(FIELDS, 2, 73, 20546398665);
    PackLetter(FIELDS, 1, 137, 5259878058313);
    PackFrom(FIELDS, 0, Field(3, 3));
  }

  /** Bytes repeated from five back go round. */
  lemma {:induction false} Round(first: seq<Byte>, w: seq<Byte>, k: nat)
    requires |w| == 5
    ensures CopyBack(first + w, k, 5) == first + w + seq(k, i requires 0 <= i < k => w[i % 5])
  {
    var s := seq(k, i requires 0 <= i < k => w[i % 5]);
    if k > 0 {
      Round(first, w, k - 1);
      var t := seq(k - 1, i requires 0 <= i < k - 1 => w[i % 5]);
      var h := first + w + t;
      assert h[|h| - 5] == w[(k - 1) % 5] by { FiveBack(first, w, t, k - 1); }
      assert s == t + [w[(k - 1) % 5]];
    } else {
      assert first + w + s == first + w;
    }
  }

  lemma FiveBack(first: seq<Byte>, w: seq<Byte>, t: seq<Byte>, k: nat)
    requires |w| == 5 && |t| == k && forall i :: 0 <= i < k ==> t[i] == w[i % 5]
    ensures var h := first + w + t; h[|h| - 5] == w[k % 5]
  {
    if k >= 5 { assert (k - 5) % 5 == k % 5; }
  }

  lemma OnlyMatch(t: Token, h: seq<Byte>)
    ensures Play([t], h) == PlayOne(t, h)
  {
    assert [t][1..] == [];
    assert Play([], PlayOne(t, h)) == PlayOne(t, h);
  }

  const OUTPUT: seq<Byte> :=
    [0x61, 0x62, 0x63, 0x64, 0x65, 0x61, 0x62, 0x63, 0x64, 0x65, 0x61, 0x62, 0x63, 0x64, 0x65, 0x61, 0x62]

  lemma Twelve(w: seq<Byte>)
    requires w == [0x61, 0x62, 0x63, 0x64, 0x65]
    ensures w + seq(12, i requires 0 <= i < 12 => w[i % 5]) == OUTPUT
  {
  }

  lemma Regroup(a: seq<Byte>, b: seq<Byte>, c: seq<Byte>)
    ensures a + b + c == a + (b + c)
  {
  }

  lemma MatchPlayed(h: seq<Byte>)
    ensures Play(TOKENS[5..], h) == CopyBack(h, 12, 5)
  {
    assert TOKENS[5..] == [CopyToken(8, 1, 4, 0)];
    assert PlayOne(CopyToken(8, 1, 4, 0), h) == CopyBack(h, 12, 5);
    OnlyMatch(CopyToken(8, 1, 4, 0), h);
  }

  lemma MatchOutput(hist: seq<Byte>)
    ensures PieceOutput(FixedPiece(TOKENS), hist) == hist + OUTPUT
  {
    var w: seq<Byte> := [0x61, 0x62, 0x63, 0x64, 0x65];
    hide CopyBack, Play, PlayOne, TOKENS, OUTPUT;
    Letters(hist);
    MatchPlayed(hist + w);
    Round(hist, w, 12);
    Twelve(w);
    Regroup(hist, w, seq(12, i requires 0 <= i < 12 => w[i % 5]));
  }

  lemma {:induction false} LettersFrom(ts: seq<Token>, w: seq<Byte>, h: seq<Byte>)
    requires |w| <= |ts| && forall i :: 0 <= i < |w| ==> ts[i] == ByteToken(w[i])
    ensures Play(ts, h) == Play(ts[|w|..], h + w)
    decreases |w|
  {
    if |w| == 0 {
      assert ts[0..] == ts && h + w == h;
    } else {
      LettersFrom(ts[1..], w[1..], h + [w[0]]);
      assert ts[1..][|w[1..]|..] == ts[|w|..];
      assert h + [w[0]] + w[1..] == h + w;
    }
  }

  lemma Letters(hist: seq<Byte>)
    ensures Play(TOKENS, hist) == Play(TOKENS[5..], hist + [0x61, 0x62, 0x63, 0x64, 0x65])
  {
    hide Play;
    LettersFrom(TOKENS, [0x61, 0x62, 0x63, 0x64, 0x65], hist);
  }

  lemma MatchEnd()
    requires PieceOK(FixedPiece(TOKENS))
    ensures PieceEnd(FixedPiece(TOKENS), 0) == 64
  {
    hide PieceOK, PieceFields, PieceEnd, FIELDS, TOKENS;
    AllFields();
    AllPacked();
    EndIs(FixedPiece(TOKENS), FIELDS);
  }

  const STREAM: seq<Byte> := [0x4B, 0x4C, 0x4A, 0x4E, 0x49, 0x45, 0x26, 0x00]

  lemma StreamNumber()
    ensures Number(STREAM) == 0x2645494e4a4c4b
  {
    var s := STREAM;
    hide Number;
    NumberNone();
    NumberFour(s[4], s[5], s[6], s[7], []);
    NumberFour(s[0], s[1], s[2], s[3], s[4..]);
    assert s[4..] == [s[4], s[5], s[6], s[7]] + [] && s == [s[0], s[1], s[2], s[3]] + s[4..];
  }

  /** Eight bytes that are the letters a to e three times, and a and b. */
  lemma RepeatedLetters(hist: seq<Byte>)
    ensures EndsIn(STREAM, Origin(hist), Stream(Finished, true, 64, hist + OUTPUT))
  {
    hide PieceOK, PieceFields, Pack, Number, ComesTo, TOKENS, FIELDS, OUTPUT, STREAM, PieceEnd, PieceOutput, Width;
    AllOK();
    AllFields();
    AllPacked();
    MatchEnd();
    MatchOutput(hist);
    StreamNumber();
    OneBlock(FixedPiece(TOKENS), STREAM, hist);
  }
}
