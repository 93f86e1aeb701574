// CRC-32: the table-driven, unrolled routine against the bitwise definition,
// and what a matching checksum rules out.
module Crc32 {
  type Word = bv32

  /** The polynomial without x^32, lowest power in the most significant bit */
  const POLY: Word := 0xedb8_8320

  // Exclusive-or, shift and low bit under names of their own: the proofs below
  // go by their laws, not bit by bit.
  function Xor(a: Word, b: Word): Word { a ^ b }

  function Half(a: Word): Word { a >> 1 }

  predicate Odd(a: Word) { a & 1 == 1 }

  lemma XorHalf(a: Word, b: Word)
    ensures Half(Xor(a, b)) == Xor(Half(a), Half(b)) && (Odd(Xor(a, b)) <==> Odd(a) != Odd(b))
  {
  }

  lemma XorAssoc(a: Word, b: Word, c: Word)
    ensures Xor(Xor(a, b), c) == Xor(a, Xor(b, c))
  {
  }

  lemma XorComm(a: Word, b: Word)
    ensures Xor(a, b) == Xor(b, a)
  {
  }

  lemma XorZero(a: Word)
    ensures Xor(a, 0) == a
  {
  }

  lemma XorEqual(a: Word, b: Word)
    ensures Xor(a, b) == 0 <==> a == b
  {
  }

  lemma XorTwice(a: Word, b: Word)
    ensures Xor(Xor(a, b), b) == a
  {
  }

  /** A common term moves out, a common pair vanishes. */
  lemma XorPairs(p: Word, x: Word, y: Word)
    ensures Xor(Xor(p, x), Xor(p, y)) == Xor(x, y) && Xor(Xor(p, x), y) == Xor(p, Xor(x, y))
            && Xor(x, Xor(p, y)) == Xor(p, Xor(x, y))
  {
    hide Xor;
    XorAssoc(p, x, y);
    XorComm(x, p);
    XorAssoc(x, p, y);
    XorComm(p, x);
    XorAssoc(Xor(x, p), p, y);
    XorTwice(x, p);
  }

  // ------------------------------------------------------- the definition

  /** One bit through the shift register. */
  function Step(c: Word): Word {
    if Odd(c) then Xor(POLY, Half(c)) else Half(c)
  }

  function Steps(c: Word, n: nat): Word {
    if n == 0 then c else Step(Steps(c, n - 1))
  }

  /** One byte of a message. */
  type Octet = b: bv32 | b <= 0xff

  /** One byte, lowest bit first (section 8 of RFC 1952). */
  function ByteStep(c: Word, b: Octet): Word {
    Steps(Xor(c, b), 8)
  }

  /** The register after a message. */
  function Register(c: Word, msg: seq<Octet>): Word {
    if |msg| == 0 then c else ByteStep(Register(c, msg[..|msg| - 1]), msg[|msg| - 1])
  }

  /** The checksum, with the complement before and after. */
  function Checksum(crc: Word, msg: seq<Octet>): Word {
    Xor(Register(Xor(crc, 0xffff_ffff), msg), 0xffff_ffff)
  }

  // ------------------------------------------------------------ linearity

  /** The register step is linear over exclusive-or. */
  lemma StepLinear(a: Word, b: Word)
    ensures Step(Xor(a, b)) == Xor(Step(a), Step(b))
  {
    hide Xor, Half, Odd;
    XorHalf(a, b);
    XorPairs(POLY, Half(a), Half(b));
  }

  lemma {:induction false} StepsLinear(a: Word, b: Word, n: nat)
    ensures Steps(Xor(a, b), n) == Xor(Steps(a, n), Steps(b, n))
  {
    hide Xor, Step;
    if n > 0 {
      StepsLinear(a, b, n - 1);
      StepLinear(Steps(a, n - 1), Steps(b, n - 1));
    }
  }

  /** The step is one-to-one: the top bit tells which way it went. */
  lemma StepInjective(a: Word)
    requires Step(a) == 0
    ensures a == 0
  {
  }

  lemma {:induction false} StepsKernel(a: Word, n: nat)
    requires Steps(a, n) == 0
    ensures a == 0
  {
    hide Step;
    if n > 0 {
      StepInjective(Steps(a, n - 1));
      StepsKernel(a, n - 1);
    }
  }

  /** The register step is one-to-one. */
  lemma StepsInjective(a: Word, b: Word, n: nat)
    requires Steps(a, n) == Steps(b, n)
    ensures a == b
  {
    hide Steps, Xor;
    StepsLinear(a, b, n);
    XorEqual(Steps(a, n), Steps(b, n));
    StepsKernel(Xor(a, b), n);
    XorEqual(a, b);
  }

  // -------------------------------------------------------------- the table

  /** Low zeros are shifted out without effect. */
  lemma ShiftOne(y: Word, mask: Word)
    requires y & mask == 0 && mask & 1 == 1
    ensures Half(y) & (mask >> 1) == 0
    ensures Step(y) == Half(y)
  {
    OddByMask(y, mask);
    HalfMask(y, mask);
  }

  lemma OddByMask(y: Word, mask: Word)
    requires y & mask == 0 && mask & 1 == 1
    ensures y & 1 == 0
  {
  }

  lemma HalfMask(y: Word, mask: Word)
    ensures (y >> 1) & (mask >> 1) == (y & mask) >> 1
  {
  }

  lemma EightHalves(y: Word)
    ensures Half(Half(Half(Half(Half(Half(Half(Half(y)))))))) == y >> 8
  {
  }

  lemma ShiftDown(y: Word)
    requires y & 0xff == 0
    ensures Steps(y, 8) == y >> 8
  {
    EightHalves(y);
    hide Half, Step, Steps;
    var y1 := Half(y);
    var y2 := Half(y1);
    var y3 := Half(y2);
    var y4 := Half(y3);
    var y5 := Half(y4);
    var y6 := Half(y5);
    var y7 := Half(y6);
    ShiftOne(y, 0xff);
    ShiftOne(y1, 0x7f);
    ShiftOne(y2, 0x3f);
    ShiftOne(y3, 0x1f);
    ShiftOne(y4, 0x0f);
    ShiftOne(y5, 0x07);
    ShiftOne(y6, 0x03);
    ShiftOne(y7, 0x01);
    EightSteps(y);
  }

  lemma EightSteps(c: Word)
    ensures Steps(c, 8) == Step(Step(Step(Step(Step(Step(Step(Step(c))))))))
  {
    hide Step;
    assert Steps(c, 1) == Step(c) && Steps(c, 2) == Step(Steps(c, 1)) && Steps(c, 3) == Step(Steps(c, 2));
    assert Steps(c, 4) == Step(Steps(c, 3)) && Steps(c, 5) == Step(Steps(c, 4)) && Steps(c, 6) == Step(Steps(c, 5));
    assert Steps(c, 7) == Step(Steps(c, 6));
  }

  lemma SplitByte(c: Word)
    ensures c == Xor(c & 0xff, c & 0xffff_ff00)
  {
  }

  lemma NoLowByte(c: Word)
    ensures (c & 0xffff_ff00) & 0xff == 0
  {
  }

  lemma HighShift(c: Word)
    ensures (c & 0xffff_ff00) >> 8 == c >> 8
  {
  }

  lemma HighBytes(c: Word, b: Octet)
    ensures Xor(c, b) >> 8 == c >> 8
  {
  }

  /** One table lookup does the work of eight steps. */
  lemma Lookup(c: Word, b: Octet)
    ensures ByteStep(c, b) == Xor(Steps(Xor(c, b) & 0xff, 8), c >> 8)
  {
    var x := Xor(c, b);
    var lo, hi, sh := x & 0xff, x & 0xffff_ff00, x >> 8;
    SplitByte(x);
    NoLowByte(x);
    HighShift(x);
    HighBytes(c, b);
    hide Steps, Xor;
    StepsLinear(lo, hi, 8);
    ShiftDown(hi);
  }

  // ------------------------------------------------------------ composition

  lemma {:induction false} RegisterAppend(c: Word, a: seq<Octet>, b: seq<Octet>)
    ensures Register(c, a + b) == Register(Register(c, a), b)
  {
    hide ByteStep;
    if |b| == 0 {
      assert a + b == a;
    } else {
      assert (a + b)[..|a + b| - 1] == a + b[..|b| - 1];
      RegisterAppend(c, a, b[..|b| - 1]);
    }
  }

  /** A checksum taken in pieces is that of the whole. */
  lemma ChecksumAppend(crc: Word, a: seq<Octet>, b: seq<Octet>)
    ensures Checksum(Checksum(crc, a), b) == Checksum(crc, a + b)
  {
    var ones := 0xffff_ffff as bv32;
    XorTwice(Register(Xor(crc, ones), a), ones);
    RegisterAppend(Xor(crc, ones), a, b);
  }

  // ------------------------------------------------------- the known values

  function Lowest(c: Word): Octet {
    ByteLow(c);
    c & 0xff
  }

  function Down(c: Word): Word { c >> 8 }

  lemma ByteLow(c: Word)
    ensures c & 0xff <= 0xff
  {
  }

  /** The bytes of a word, lowest first. */
  function BytesOf(c: Word): seq<Octet> {
    [Lowest(c), Lowest(Down(c)), Lowest(Down(Down(c))), Lowest(Down(Down(Down(c))))]
  }

  /** Eight steps take in the lowest byte and leave the others one place down. */
  lemma LowByteFirst(r: Word, c: Word)
    ensures Steps(Xor(r, c), 8) == Xor(ByteStep(r, Lowest(c)), Down(c))
  {
    var lo, hi := c & 0xff, c & 0xffff_ff00;
    SplitByte(c);
    NoLowByte(c);
    HighShift(c);
    ByteLow(c);
    XorAssoc(r, lo, hi);
    hide Steps, Xor;
    StepsLinear(Xor(r, lo), hi, 8);
    ShiftDown(hi);
  }

  lemma AllDown(c: Word)
    ensures Down(Down(Down(Down(c)))) == 0
  {
  }

  /** A word that is added at once, or byte by byte. */
  lemma WordRegister(r: Word, c: Word)
    ensures Register(r, BytesOf(c)) == Steps(Steps(Steps(Steps(Xor(r, c), 8), 8), 8), 8)
  {
    AllDown(c);
    hide Steps, Xor, ByteStep, Register, Lowest, Down;
    LowByteFirst(r, c);
    var r1 := ByteStep(r, Lowest(c));
    LowByteFirst(r1, Down(c));
    var r2 := ByteStep(r1, Lowest(Down(c)));
    LowByteFirst(r2, Down(Down(c)));
    var r3 := ByteStep(r2, Lowest(Down(Down(c))));
    LowByteFirst(r3, Down(Down(Down(c))));
    XorZero(ByteStep(r3, Lowest(Down(Down(Down(c))))));
    RegisterFour(r, Lowest(c), Lowest(Down(c)), Lowest(Down(Down(c))), Lowest(Down(Down(Down(c)))));
  }

  lemma RegisterOne(r: Word, msg: seq<Octet>, b: Octet)
    ensures Register(r, msg + [b]) == ByteStep(Register(r, msg), b)
  {
    assert (msg + [b])[..|msg|] == msg;
  }

  lemma RegisterFour(r: Word, a: Octet, b: Octet, c: Octet, d: Octet)
    ensures Register(r, [a, b, c, d]) == ByteStep(ByteStep(ByteStep(ByteStep(r, a), b), c), d)
  {
    assert Register(r, []) == r;
    hide ByteStep, Register;
    RegisterOne(r, [], a);
    RegisterOne(r, [a], b);
    RegisterOne(r, [a, b], c);
    RegisterOne(r, [a, b, c], d);
    assert [] + [a] == [a] && [a] + [b] == [a, b] && [a, b] + [c] == [a, b, c] && [a, b, c] + [d] == [a, b, c, d];
  }

  /** A message followed by its checksum, lowest byte first, always leaves the
      register with the same value: what a receiver may look for. */
  lemma Residue(msg: seq<Octet>)
    ensures Register(0xffff_ffff, msg + BytesOf(Checksum(0, msg))) == 0xdebb_20e3
  {
    var ones := 0xffff_ffff as Word;
    var r := Register(ones, msg);
    XorComm(0, ones);
    XorZero(ones);
    XorTwice(ones, r);
    XorComm(r, ones);
    XorAssoc(r, r, ones);
    XorEqual(r, r);
    hide Xor, Register, Steps;
    RegisterAppend(ones, msg, BytesOf(Checksum(0, msg)));
    WordRegister(r, Xor(r, ones));
    OnesGone();
  }

  lemma OnesGone()
    ensures Steps(Steps(Steps(Steps(0xffff_ffff, 8), 8), 8), 8) == 0xdebb_20e3
  {
    EightOnes();
    SixteenOnes();
    MoreOnes();
    LastOnes();
  }

  lemma EightOnes()
    ensures Steps(0xffff_ffff, 8) == 0x2dfd_1072
  {
    EightSteps(0xffff_ffff);
    assert Step(0xffff_ffff) == 0x9247_7cdf;
    assert Step(0x9247_7cdf) == 0xa49b_3d4f;
    assert Step(0xa49b_3d4f) == 0xbff5_1d87;
    assert Step(0xbff5_1d87) == 0xb242_0de3;
    assert Step(0xb242_0de3) == 0xb499_85d1;
    assert Step(0xb499_85d1) == 0xb7f4_41c8;
    assert Step(0xb7f4_41c8) == 0x5bfa_20e4;
    assert Step(0x5bfa_20e4) == 0x2dfd_1072;
  }

  lemma SixteenOnes()
    ensures Steps(0x2dfd_1072, 8) == 0xbe26_ed00
  {
    EightSteps(0x2dfd_1072);
    assert Step(0x2dfd_1072) == 0x16fe_8839;
    assert Step(0x16fe_8839) == 0xe6c7_c73c;
    assert Step(0xe6c7_c73c) == 0x7363_e39e;
    assert Step(0x7363_e39e) == 0x39b1_f1cf;
    assert Step(0x39b1_f1cf) == 0xf160_7bc7;
    assert Step(0xf160_7bc7) == 0x9508_bec3;
    assert Step(0x9508_bec3) == 0xa73c_dc41;
    assert Step(0xa73c_dc41) == 0xbe26_ed00;
  }

  lemma MoreOnes()
    ensures Steps(0xbe26_ed00, 8) == 0xbe_26ed
  {
    EightSteps(0xbe26_ed00);
    assert Step(0xbe26_ed00) == 0x5f13_7680;
    assert Step(0x5f13_7680) == 0x2f89_bb40;
    assert Step(0x2f89_bb40) == 0x17c4_dda0;
    assert Step(0x17c4_dda0) == 0xbe2_6ed0;
    assert Step(0xbe2_6ed0) == 0x5f1_3768;
    assert Step(0x5f1_3768) == 0x2f8_9bb4;
    assert Step(0x2f8_9bb4) == 0x17c_4dda;
    assert Step(0x17c_4dda) == 0xbe_26ed;
  }

  lemma LastOnes()
    ensures Steps(0xbe_26ed, 8) == 0xdebb_20e3
  {
    EightSteps(0xbe_26ed);
    assert Step(0xbe_26ed) == 0xede7_9056;
    assert Step(0xede7_9056) == 0x76f3_c82b;
    assert Step(0x76f3_c82b) == 0xd6c1_6735;
    assert Step(0xd6c1_6735) == 0x86d8_30ba;
    assert Step(0x86d8_30ba) == 0x436c_185d;
    assert Step(0x436c_185d) == 0xcc0e_8f0e;
    assert Step(0xcc0e_8f0e) == 0x6607_4787;
    assert Step(0x6607_4787) == 0xdebb_20e3;
  }

  const DIGITS: seq<Octet> := [0x31, 0x32, 0x33, 0x34, 0x35, 0x36, 0x37, 0x38, 0x39]

  /** The check value that is usually given: the checksum of the nine digits. */
  lemma NineDigits()
    ensures Checksum(0, DIGITS) == 0xcbf4_3926
  {
    AllOnes();
    hide Xor, ByteStep, Register;
    DigitsRegister();
    assert DIGITS[..9] == DIGITS;
  }

  lemma AllOnes()
    ensures Xor(0, 0xffff_ffff) == 0xffff_ffff && Xor(0x340b_c6d9, 0xffff_ffff) == 0xcbf4_3926
    ensures Register(0xffff_ffff, DIGITS[..0]) == 0xffff_ffff
  {
  }

  lemma DigitsRegister()
    ensures Register(0xffff_ffff, DIGITS[..9]) == 0x340b_c6d9
  {
    AllOnes();
    hide Xor, ByteStep, Register;
    Digit1();
    Digit2();
    Digit3();
    Digit4();
    Digit5();
    Digit6();
    Digit7();
    Digit8();
    Digit9();
    Prefix(0);
    Prefix(1);
    Prefix(2);
    Prefix(3);
    Prefix(4);
    Prefix(5);
    Prefix(6);
    Prefix(7);
    Prefix(8);
  }

  lemma Prefix(i: nat)
    requires i < 9
    ensures Register(0xffff_ffff, DIGITS[..i + 1]) == ByteStep(Register(0xffff_ffff, DIGITS[..i]), DIGITS[i])
  {
    RegisterOne(0xffff_ffff, DIGITS[..i], DIGITS[i]);
    assert DIGITS[..i + 1] == DIGITS[..i] + [DIGITS[i]];
  }

  lemma Digit1()
    ensures ByteStep(0xffff_ffff, 0x31) == 0x7c23_1048
  {
    assert Xor(0xffff_ffff, 0x31) == 0xffff_ffce;
    EightSteps(0xffff_ffce);
    assert Step(0xffff_ffce) == 0x7fff_ffe7;
    assert Step(0x7fff_ffe7) == 0xd247_7cd3;
    assert Step(0xd247_7cd3) == 0x849b_3d49;
    assert Step(0x849b_3d49) == 0xaff5_1d84;
    assert Step(0xaff5_1d84) == 0x57fa_8ec2;
    assert Step(0x57fa_8ec2) == 0x2bfd_4761;
    assert Step(0x2bfd_4761) == 0xf846_2090;
    assert Step(0xf846_2090) == 0x7c23_1048;
  }

  lemma Digit2()
    ensures ByteStep(0x7c23_1048, 0x32) == 0xb0ac_bb32
  {
    assert Xor(0x7c23_1048, 0x32) == 0x7c23_107a;
    EightSteps(0x7c23_107a);
    assert Step(0x7c23_107a) == 0x3e11_883d;
    assert Step(0x3e11_883d) == 0xf2b0_473e;
    assert Step(0xf2b0_473e) == 0x7958_239f;
    assert Step(0x7958_239f) == 0xd114_92ef;
    assert Step(0xd114_92ef) == 0x8532_ca57;
    assert Step(0x8532_ca57) == 0xaf21_e60b;
    assert Step(0xaf21_e60b) == 0xba28_7025;
    assert Step(0xba28_7025) == 0xb0ac_bb32;
  }

  lemma Digit3()
    ensures ByteStep(0xb0ac_bb32, 0x33) == 0x77b7_9c2d
  {
    assert Xor(0xb0ac_bb32, 0x33) == 0xb0ac_bb01;
    EightSteps(0xb0ac_bb01);
    assert Step(0xb0ac_bb01) == 0xb5ee_dea0;
    assert Step(0xb5ee_dea0) == 0x5af7_6f50;
    assert Step(0x5af7_6f50) == 0x2d7b_b7a8;
    assert Step(0x2d7b_b7a8) == 0x16bd_dbd4;
    assert Step(0x16bd_dbd4) == 0xb5e_edea;
    assert Step(0xb5e_edea) == 0x5af_76f5;
    assert Step(0x5af_76f5) == 0xef6f_385a;
    assert Step(0xef6f_385a) == 0x77b7_9c2d;
  }

  lemma Digit4()
    ensures ByteStep(0x77b7_9c2d, 0x34) == 0x641c_1f5c
  {
    assert Xor(0x77b7_9c2d, 0x34) == 0x77b7_9c19;
    EightSteps(0x77b7_9c19);
    assert Step(0x77b7_9c19) == 0xd663_4d2c;
    assert Step(0xd663_4d2c) == 0x6b31_a696;
    assert Step(0x6b31_a696) == 0x3598_d34b;
    assert Step(0x3598_d34b) == 0xf774_ea85;
    assert Step(0xf774_ea85) == 0x9602_f662;
    assert Step(0x9602_f662) == 0x4b01_7b31;
    assert Step(0x4b01_7b31) == 0xc838_3eb8;
    assert Step(0xc838_3eb8) == 0x641c_1f5c;
  }

  lemma Digit5()
    ensures ByteStep(0x641c_1f5c, 0x35) == 0x340a_c5e3
  {
    assert Xor(0x641c_1f5c, 0x35) == 0x641c_1f69;
    EightSteps(0x641c_1f69);
    assert Step(0x641c_1f69) == 0xdfb6_8c94;
    assert Step(0xdfb6_8c94) == 0x6fdb_464a;
    assert Step(0x6fdb_464a) == 0x37ed_a325;
    assert Step(0x37ed_a325) == 0xf64e_52b2;
    assert Step(0xf64e_52b2) == 0x7b27_2959;
    assert Step(0x7b27_2959) == 0xd02b_178c;
    assert Step(0xd02b_178c) == 0x6815_8bc6;
    assert Step(0x6815_8bc6) == 0x340a_c5e3;
  }

  lemma Digit6()
    ensures ByteStep(0x340a_c5e3, 0x36) == 0xf68d_2c9e
  {
    assert Xor(0x340a_c5e3, 0x36) == 0x340a_c5d5;
    EightSteps(0x340a_c5d5);
    assert Step(0x340a_c5d5) == 0xf7bd_e1ca;
    assert Step(0xf7bd_e1ca) == 0x7bde_f0e5;
    assert Step(0x7bde_f0e5) == 0xd057_fb52;
    assert Step(0xd057_fb52) == 0x682b_fda9;
    assert Step(0x682b_fda9) == 0xd9ad_7df4;
    assert Step(0xd9ad_7df4) == 0x6cd6_befa;
    assert Step(0x6cd6_befa) == 0x366b_5f7d;
    assert Step(0x366b_5f7d) == 0xf68d_2c9e;
  }

  lemma Digit7()
    ensures ByteStep(0xf68d_2c9e, 0x37) == 0xaffc_9660
  {
    assert Xor(0xf68d_2c9e, 0x37) == 0xf68d_2ca9;
    EightSteps(0xf68d_2ca9);
    assert Step(0xf68d_2ca9) == 0x96fe_1574;
    assert Step(0x96fe_1574) == 0x4b7f_0aba;
    assert Step(0x4b7f_0aba) == 0x25bf_855d;
    assert Step(0x25bf_855d) == 0xff67_418e;
    assert Step(0xff67_418e) == 0x7fb3_a0c7;
    assert Step(0x7fb3_a0c7) == 0xd261_5343;
    assert Step(0xd261_5343) == 0x8488_2a81;
    assert Step(0x8488_2a81) == 0xaffc_9660;
  }

  lemma Digit8()
    ensures ByteStep(0xaffc_9660, 0x38) == 0x651f_2550
  {
    assert Xor(0xaffc_9660, 0x38) == 0xaffc_9658;
    EightSteps(0xaffc_9658);
    assert Step(0xaffc_9658) == 0x57fe_4b2c;
    assert Step(0x57fe_4b2c) == 0x2bff_2596;
    assert Step(0x2bff_2596) == 0x15ff_92cb;
    assert Step(0x15ff_92cb) == 0xe747_4a45;
    assert Step(0xe747_4a45) == 0x9e1b_2602;
    assert Step(0x9e1b_2602) == 0x4f0d_9301;
    assert Step(0x4f0d_9301) == 0xca3e_4aa0;
    assert Step(0xca3e_4aa0) == 0x651f_2550;
  }

  lemma Digit9()
    ensures ByteStep(0x651f_2550, 0x39) == 0x340b_c6d9
  {
    assert Xor(0x651f_2550, 0x39) == 0x651f_2569;
    EightSteps(0x651f_2569);
    assert Step(0x651f_2569) == 0xdf37_1194;
    assert Step(0xdf37_1194) == 0x6f9b_88ca;
    assert Step(0x6f9b_88ca) == 0x37cd_c465;
    assert Step(0x37cd_c465) == 0xf65e_6112;
    assert Step(0xf65e_6112) == 0x7b2f_3089;
    assert Step(0x7b2f_3089) == 0xd02f_1b64;
    assert Step(0xd02f_1b64) == 0x6817_8db2;
    assert Step(0x6817_8db2) == 0x340b_c6d9;
  }

  // --------------------------------------------------------------- routines

  /** The exponents of the polynomial, except 32 */
  const POWERS: seq<nat> := [0, 1, 2, 4, 5, 7, 8, 10, 11, 12, 16, 22, 23, 26]

  /** `1L << (31 - p)` */
  function Term(p: nat): Word
    requires p < 32
  {
    1 as bv32 << (31 - p)
  }

  function PolyOf(n: nat): Word
    requires n <= |POWERS|
  {
    if n == 0 then 0 else PolyOf(n - 1) | Term(POWERS[n - 1])
  }

  lemma NextTerm(n: nat, p: nat, sum: Word, sum': Word)
    requires 0 < n <= 14 && PolyOf(n - 1) == sum && POWERS[n - 1] == p < 32 && sum | Term(p) == sum'
    ensures PolyOf(n) == sum'
  {
  }

  lemma FirstTerms()
    ensures PolyOf(4) == 0xe800_0000
  {
    hide PolyOf;
    NoTerm();
    NextTerm(1, 0, 0, 0x8000_0000);
    NextTerm(2, 1, 0x8000_0000, 0xc000_0000);
    NextTerm(3, 2, 0xc000_0000, 0xe000_0000);
    NextTerm(4, 4, 0xe000_0000, 0xe800_0000);
  }

  lemma MiddleTerms()
    ensures PolyOf(8) == 0xeda0_0000
  {
    hide PolyOf;
    FirstTerms();
    NextTerm(5, 5, 0xe800_0000, 0xec00_0000);
    NextTerm(6, 7, 0xec00_0000, 0xed00_0000);
    NextTerm(7, 8, 0xed00_0000, 0xed80_0000);
    NextTerm(8, 10, 0xed80_0000, 0xeda0_0000);
  }

  lemma LaterTerms()
    ensures PolyOf(11) == 0xedb8_8000
  {
    hide PolyOf;
    MiddleTerms();
    NextTerm(9, 11, 0xeda0_0000, 0xedb0_0000);
    NextTerm(10, 12, 0xedb0_0000, 0xedb8_0000);
    NextTerm(11, 16, 0xedb8_0000, 0xedb8_8000);
  }

  /** The terms of the polynomial make the pattern. */
  lemma PolyIs()
    ensures PolyOf(14) == POLY
  {
    hide PolyOf;
    LaterTerms();
    NextTerm(12, 22, 0xedb8_8000, 0xedb8_8200);
    NextTerm(13, 23, 0xedb8_8200, 0xedb8_8300);
    NextTerm(14, 26, 0xedb8_8300, 0xedb8_8320);
  }

  lemma NoTerm()
    ensures PolyOf(0) == 0
  {
  }

  /** The table holds the register for every single byte. */
  ghost predicate IsTable(t: seq<Word>) {
    |t| == 256 && forall n {:trigger t[n]} :: 0 <= n < 256 ==> t[n] == Steps(n as bv32, 8)
  }

  /** make_crc_table */
  method MakeCrcTable(table: array<Word>)
    requires table.Length == 256
    modifies table
    ensures IsTable(table[..])
  {
    hide Step, Steps, Xor, Half, Odd, PolyOf, Term;
    var poly: Word := 0;
    NoTerm();
    for n := 0 to |POWERS|
      invariant poly == PolyOf(n)
    {
      NextTerm(n + 1, POWERS[n], poly, poly | Term(POWERS[n]));
      poly := poly | Term(POWERS[n]);
    }
    PolyIs();
    for n := 0 to 256
      invariant forall i :: 0 <= i < n ==> table[i] == Steps(i as bv32, 8)
    {
      var c := Entry(poly, n as bv32);
      table[n] := c;
    }
  }

  /** The inner loop of make_crc_table */
  method Entry(poly: Word, n: Word) returns (c: Word)
    requires poly == POLY
    ensures c == Steps(n, 8)
  {
    hide Step, Steps, Xor, Half, Odd;
    c := n;
    StepsNone(c);
    for k := 0 to 8
      invariant c == Steps(n, k)
    {
      StepIs(c);
      StepsMore(n, k);
      c := if Odd(c) then Xor(poly, Half(c)) else Half(c);
    }
  }

  lemma StepIs(c: Word)
    ensures Step(c) == if Odd(c) then Xor(POLY, Half(c)) else Half(c)
  {
  }

  lemma StepsNone(c: Word)
    ensures Steps(c, 0) == c
  {
  }

  lemma StepsMore(c: Word, n: nat)
    ensures Steps(c, n + 1) == Step(Steps(c, n))
  {
  }

  /** DO1 */
  method Do1(table: seq<Word>, crc: Word, buf: seq<Octet>, i: nat, ghost start: Word) returns (r: Word)
    requires IsTable(table) && i < |buf| && crc == Register(start, buf[..i])
    ensures r == Register(start, buf[..i + 1])
  {
    hide Steps, Register, ByteStep, Xor, Index;
    IndexIs(Xor(crc, buf[i]));
    Lookup(crc, buf[i]);
    RegisterMore(start, buf, i);
    r := Xor(table[Index(Xor(crc, buf[i]))], crc >> 8);
  }

  /** `(int)x & 0xff` */
  function Index(x: Word): (i: nat)
    ensures i < 256
  {
    ByteBound(Lowest(x));
    Lowest(x) as int
  }

  lemma ByteBound(y: Word)
    ensures y <= 0xff ==> 0 <= y as int < 256
  {
  }

  lemma WordRound(y: Word)
    ensures (y as int) as bv32 == y
  {
  }

  lemma IndexIs(x: Word)
    ensures Index(x) as bv32 == x & 0xff
  {
    hide Lowest;
    WordRound(Lowest(x));
    LowByteIs(x);
  }

  lemma LowByteIs(x: Word)
    ensures Lowest(x) == x & 0xff
  {
  }

  lemma RegisterMore(c: Word, buf: seq<Octet>, i: nat)
    requires i < |buf|
    ensures Register(c, buf[..i + 1]) == ByteStep(Register(c, buf[..i]), buf[i])
  {
    assert buf[..i + 1][..i] == buf[..i];
  }

  method Do4(table: seq<Word>, crc: Word, buf: seq<Octet>, i: nat, ghost start: Word) returns (r: Word)
    requires IsTable(table) && i + 4 <= |buf| && crc == Register(start, buf[..i])
    ensures r == Register(start, buf[..i + 4])
  {
    hide Register, IsTable;
    r := Do1(table, crc, buf, i, start);
    r := Do1(table, r, buf, i + 1, start);
    r := Do1(table, r, buf, i + 2, start);
    r := Do1(table, r, buf, i + 3, start);
  }

  /** The unrolled loop and its tail. */
  method Rounds(table: seq<Word>, crc: Word, buf: seq<Octet>) returns (r: Word)
    requires IsTable(table)
    ensures r == Register(crc, buf)
  {
    hide Register, IsTable;
    r := crc;
    var len, i := |buf|, 0;
    NoBytes(crc, buf);
    while len >= 8
      invariant 0 <= i && 0 <= len && i + len == |buf| && r == Register(crc, buf[..i])
    {
      r := Do4(table, r, buf, i, crc);
      r := Do4(table, r, buf, i + 4, crc);
      len, i := len - 8, i + 8;
    }
    while len > 0
      invariant 0 <= i && 0 <= len && i + len == |buf| && r == Register(crc, buf[..i])
    {
      r := Do1(table, r, buf, i, crc);
      len, i := len - 1, i + 1;
    }
    assert buf[..i] == buf;
  }

  lemma NoBytes(c: Word, buf: seq<Octet>)
    ensures Register(c, buf[..0]) == c
  {
  }

  /** crc32_no_comp, which is 0 for a null buffer */
  method Crc32NoComp(table: seq<Word>, crc: Word, isNull: bool, buf: seq<Octet>) returns (r: Word)
    requires IsTable(table)
    ensures r == if isNull then 0 else Register(crc, buf)
  {
    hide Register;
    if isNull { return 0; }
    r := Rounds(table, crc, buf);
  }

  /** crc32, which is 0 for a null buffer */
  method Crc32(table: seq<Word>, crc: Word, isNull: bool, buf: seq<Octet>) returns (r: Word)
    requires IsTable(table)
    ensures r == if isNull then 0 else Checksum(crc, buf)
  {
    hide Xor, Register;
    if isNull { return 0; }
    r := Rounds(table, Xor(crc, 0xffff_ffff), buf);
    r := Xor(r, 0xffff_ffff);
  }

  // -------------------------------------------------------- error detection

  function BitWord(bit: bool): Word {
    if bit then 1 else 0
  }

  /** The register after a sequence of bits. */
  function BitRegister(c: Word, bits: seq<bool>): Word {
    if |bits| == 0 then c else Step(Xor(BitRegister(c, bits[..|bits| - 1]), BitWord(bits[|bits| - 1])))
  }

  function Halved(b: Word, k: nat): Word {
    if k == 0 then b else Half(Halved(b, k - 1))
  }

  /** The `k` lowest bits of a word, lowest first. */
  function LowBits(b: Word, k: nat): (r: seq<bool>)
    ensures |r| == k
  {
    if k == 0 then [] else LowBits(b, k - 1) + [Odd(Halved(b, k - 1))]
  }

  /** The bits of a message, lowest first in every byte. */
  function Bits(msg: seq<Octet>): (r: seq<bool>)
    ensures |r| == 8 * |msg|
  {
    if |msg| == 0 then [] else Bits(msg[..|msg| - 1]) + LowBits(msg[|msg| - 1], 8)
  }

  lemma {:induction false} BitRegisterAppend(c: Word, a: seq<bool>, b: seq<bool>)
    ensures BitRegister(c, a + b) == BitRegister(BitRegister(c, a), b)
  {
    hide Step, Xor, BitWord;
    if |b| == 0 {
      assert a + b == a;
    } else {
      assert (a + b)[..|a + b| - 1] == a + b[..|b| - 1];
      BitRegisterAppend(c, a, b[..|b| - 1]);
    }
  }

  /** A bit that comes later may as well be added to the register at once, one
      place further up. */
  lemma BitAhead(c: Word, y: Word)
    ensures Step(Xor(c, y)) == Xor(Step(Xor(c, BitWord(Odd(y)))), Half(y))
  {
    if Odd(y) {
      LowOne(y);
      XorAssoc(c, 1, Xor(1, y));
      XorAssoc(1, 1, y);
      XorEqual(1, 1);
      XorComm(0, y);
      XorZero(y);
      hide Xor, Half, Odd, Step;
      StepLinear(Xor(c, 1), Xor(1, y));
    } else {
      XorZero(c);
      EvenStep(y);
      hide Xor, Half, Odd, Step;
      StepLinear(c, y);
    }
  }

  lemma EvenStep(y: Word)
    requires !Odd(y)
    ensures Step(y) == Half(y)
  {
    LowBitIs(y);
  }

  lemma LowBitIs(y: Word)
    ensures y & 1 == 0 || y & 1 == 1
  {
  }

  lemma LowOne(y: Word)
    requires Odd(y)
    ensures Step(Xor(1, y)) == Half(y)
  {
    XorHalf(1, y);
    assert Half(1) == 0;
    XorComm(0, Half(y));
    XorZero(Half(y));
  }

  lemma BitMore(c: Word, bits: seq<bool>, bit: bool)
    ensures BitRegister(c, bits + [bit]) == Step(Xor(BitRegister(c, bits), BitWord(bit)))
  {
    assert (bits + [bit])[..|bits|] == bits;
  }

  /** Adding a word and then shifting, or shifting in its bits one by one. */
  lemma {:induction false} BitByBit(c: Word, b: Word, k: nat)
    ensures Steps(Xor(c, b), k) == Xor(BitRegister(c, LowBits(b, k)), Halved(b, k))
  {
    hide Step, Xor, Half, Odd, BitWord;
    if k > 0 {
      BitByBit(c, b, k - 1);
      BitMore(c, LowBits(b, k - 1), Odd(Halved(b, k - 1)));
      BitAhead(BitRegister(c, LowBits(b, k - 1)), Halved(b, k - 1));
    }
  }

  lemma ByteGone(b: Octet)
    ensures Halved(b, 8) == 0
  {
    EightHalves(b);
    ByteShift(b);
    hide Half;
    HalvedMore(b, 0);
    HalvedMore(b, 1);
    HalvedMore(b, 2);
    HalvedMore(b, 3);
    HalvedMore(b, 4);
    HalvedMore(b, 5);
    HalvedMore(b, 6);
    HalvedMore(b, 7);
  }

  lemma HalvedMore(b: Word, k: nat)
    ensures Halved(b, k + 1) == Half(Halved(b, k)) && Halved(b, 0) == b
  {
  }

  lemma ByteShift(b: Word)
    requires b <= 0xff
    ensures b >> 8 == 0
  {
  }

  lemma ByteBits(c: Word, b: Octet)
    ensures BitRegister(c, LowBits(b, 8)) == ByteStep(c, b)
  {
    BitByBit(c, b, 8);
    ByteGone(b);
    XorZero(BitRegister(c, LowBits(b, 8)));
    hide Xor, Steps, LowBits, BitRegister, Halved;
  }

  /** The register of a message is that of its bits. */
  lemma {:induction false} RegisterBits(c: Word, msg: seq<Octet>)
    ensures Register(c, msg) == BitRegister(c, Bits(msg))
  {
    hide ByteStep, LowBits;
    if |msg| > 0 {
      RegisterBits(c, msg[..|msg| - 1]);
      BitRegisterAppend(c, Bits(msg[..|msg| - 1]), LowBits(msg[|msg| - 1], 8));
      ByteBits(BitRegister(c, Bits(msg[..|msg| - 1])), msg[|msg| - 1]);
    }
  }

  // Where the highest bit of the difference of two registers can be after a
  // first differing bit: at the top, and one place lower after every further
  // bit.
  function Top(i: nat): Word {
    if i == 0 then 0x8000_0000 else Half(Top(i - 1)) | 0x8000_0000
  }

  predicate Meets(a: Word, mask: Word) { a & mask != 0 }

  /** The next mask; the values are those of the 32 masks. */
  lemma NextTop(i: nat, mask: Word, next: Word)
    requires Top(i) == mask && Half(mask) | 0x8000_0000 == next
    ensures Top(i + 1) == next
  {
    hide Half;
    assert i + 1 > 0 && i + 1 - 1 == i;
  }

  lemma Tops1(i: nat)
    requires 0 <= i < 8
    ensures !Odd(Top(i))
    ensures Top(7) == 0xff00_0000
  {
    hide Top;
    assert Top(0) == 0x8000_0000 by { TopZero(); }
    NextTop(0, 0x8000_0000, 0xc000_0000);
    NextTop(1, 0xc000_0000, 0xe000_0000);
    NextTop(2, 0xe000_0000, 0xf000_0000);
    NextTop(3, 0xf000_0000, 0xf800_0000);
    NextTop(4, 0xf800_0000, 0xfc00_0000);
    NextTop(5, 0xfc00_0000, 0xfe00_0000);
    NextTop(6, 0xfe00_0000, 0xff00_0000);
    assert i == 0 || i == 1 || i == 2 || i == 3 || i == 4 || i == 5 || i == 6 || i == 7;
  }

  lemma Tops2(i: nat)
    requires 8 <= i < 16
    ensures !Odd(Top(i))
    ensures Top(15) == 0xffff_0000
  {
    hide Top;
    Tops1(7);
    NextTop(7, 0xff00_0000, 0xff80_0000);
    NextTop(8, 0xff80_0000, 0xffc0_0000);
    NextTop(9, 0xffc0_0000, 0xffe0_0000);
    NextTop(10, 0xffe0_0000, 0xfff0_0000);
    NextTop(11, 0xfff0_0000, 0xfff8_0000);
    NextTop(12, 0xfff8_0000, 0xfffc_0000);
    NextTop(13, 0xfffc_0000, 0xfffe_0000);
    NextTop(14, 0xfffe_0000, 0xffff_0000);
    assert i == 8 || i == 9 || i == 10 || i == 11 || i == 12 || i == 13 || i == 14 || i == 15;
  }

  lemma Tops3(i: nat)
    requires 16 <= i < 24
    ensures !Odd(Top(i))
    ensures Top(23) == 0xffff_ff00
  {
    hide Top;
    Tops2(15);
    NextTop(15, 0xffff_0000, 0xffff_8000);
    NextTop(16, 0xffff_8000, 0xffff_c000);
    NextTop(17, 0xffff_c000, 0xffff_e000);
    NextTop(18, 0xffff_e000, 0xffff_f000);
    NextTop(19, 0xffff_f000, 0xffff_f800);
    NextTop(20, 0xffff_f800, 0xffff_fc00);
    NextTop(21, 0xffff_fc00, 0xffff_fe00);
    NextTop(22, 0xffff_fe00, 0xffff_ff00);
    assert i == 16 || i == 17 || i == 18 || i == 19 || i == 20 || i == 21 || i == 22 || i == 23;
  }

  lemma Tops4(i: nat)
    requires 24 <= i < 31
    ensures !Odd(Top(i))
    ensures Top(30) == 0xffff_fffe
  {
    hide Top;
    Tops3(23);
    NextTop(23, 0xffff_ff00, 0xffff_ff80);
    NextTop(24, 0xffff_ff80, 0xffff_ffc0);
    NextTop(25, 0xffff_ffc0, 0xffff_ffe0);
    NextTop(26, 0xffff_ffe0, 0xffff_fff0);
    NextTop(27, 0xffff_fff0, 0xffff_fff8);
    NextTop(28, 0xffff_fff8, 0xffff_fffc);
    NextTop(29, 0xffff_fffc, 0xffff_fffe);
    assert i == 24 || i == 25 || i == 26 || i == 27 || i == 28 || i == 29 || i == 30;
  }

  lemma TopZero()
    ensures Top(0) == 0x8000_0000
  {
  }

  lemma TopEven(i: nat)
    requires i < 31
    ensures !Odd(Top(i))
  {
    hide Top, Odd;
    if i < 8 { Tops1(i); } else if i < 16 { Tops2(i); } else if i < 24 { Tops3(i); } else { Tops4(i); }
  }

  /** The difference of two registers takes one step of its own. */
  lemma DifferenceStep(x: Word, y: Word, a: bool, b: bool)
    ensures Xor(Step(Xor(x, BitWord(a))), Step(Xor(y, BitWord(b)))) == Step(Xor(Xor(x, y), BitWord(a != b)))
  {
    BitWords(a, b);
    hide Xor, Step, BitWord;
    StepLinear(Xor(x, BitWord(a)), Xor(y, BitWord(b)));
    var p, q := BitWord(a), BitWord(b);
    XorAssoc(x, p, Xor(y, q));
    XorComm(y, q);
    XorAssoc(p, q, y);
    XorComm(Xor(p, q), y);
    XorAssoc(x, y, Xor(p, q));
  }

  lemma BitWords(a: bool, b: bool)
    ensures Xor(BitWord(a), BitWord(b)) == BitWord(a != b)
  {
  }

  function Difference(c: Word, u: seq<bool>, v: seq<bool>, m: nat): Word
    requires m <= |u| && m <= |v|
  {
    Xor(BitRegister(c, u[..m]), BitRegister(c, v[..m]))
  }

  lemma DifferenceMore(c: Word, u: seq<bool>, v: seq<bool>, m: nat)
    requires m < |u| == |v|
    ensures Difference(c, u, v, m + 1) == Step(Xor(Difference(c, u, v, m), BitWord(u[m] != v[m])))
  {
    hide Xor, Step, BitWord;
    assert u[..m + 1] == u[..m] + [u[m]] && v[..m + 1] == v[..m] + [v[m]];
    BitMore(c, u[..m], u[m]);
    BitMore(c, v[..m], v[m]);
    DifferenceStep(BitRegister(c, u[..m]), BitRegister(c, v[..m]), u[m], v[m]);
  }

  /** A difference that meets the mask meets the next one after a step. */
  lemma StaysHigh(d: Word, mask: Word, bit: bool)
    requires Meets(d, mask) && !Odd(mask)
    ensures Meets(Step(Xor(d, BitWord(bit))), Half(mask) | 0x8000_0000)
  {
    hide Xor, Half, Odd, Meets, Step;
    if bit { FlipLow(d, mask); } else { XorZero(d); }
    StepMeets(Xor(d, BitWord(bit)), mask);
  }

  lemma StepMeets(e: Word, mask: Word)
    requires Meets(e, mask) && !Odd(mask)
    ensures Meets(Step(e), Half(mask) | 0x8000_0000)
  {
    hide Xor, Half, Odd, Meets;
    if Odd(e) { TopSet(e, mask); } else { HalfMeets(e, mask); }
  }

  lemma FlipLow(d: Word, mask: Word)
    requires Meets(d, mask) && !Odd(mask)
    ensures Meets(Xor(d, 1), mask)
  {
  }

  lemma TopSet(e: Word, mask: Word)
    ensures Meets(Xor(POLY, Half(e)), Half(mask) | 0x8000_0000)
  {
  }

  lemma HalfMeets(e: Word, mask: Word)
    requires Meets(e, mask) && !Odd(mask)
    ensures Meets(Half(e), Half(mask) | 0x8000_0000)
  {
  }

  lemma NonZero(d: Word, mask: Word)
    requires Meets(d, mask)
    ensures d != 0
  {
  }

  /** All differences of the two lie within 32 consecutive bits. */
  predicate Burst(u: seq<bool>, v: seq<bool>, t: nat) {
    |u| == |v| && forall i :: 0 <= i < |u| && !(t <= i < t + 32) ==> u[i] == v[i]
  }

  lemma {:induction false} StillDifferent(c: Word, u: seq<bool>, v: seq<bool>, t: nat, m: nat)
    requires t < m <= |u| && Burst(u, v, t) && u[t] != v[t] && u[..t] == v[..t]
    ensures Difference(c, u, v, m) != 0
    ensures m <= t + 32 ==> Meets(Difference(c, u, v, m), Top(m - t - 1))
    decreases m
  {
    hide Step, Xor, BitWord, Difference, Odd, Half, Meets, POLY;
    DifferenceMore(c, u, v, m - 1);
    if m == t + 1 {
      FirstDifference(c, u, v, t);
    } else {
      StillDifferent(c, u, v, t, m - 1);
      var d := Difference(c, u, v, m - 1);
      if m <= t + 32 {
        TopEven(m - t - 2);
        StaysHigh(d, Top(m - t - 2), u[m - 1] != v[m - 1]);
        NonZero(Difference(c, u, v, m), Top(m - t - 1));
      } else {
        NoBit(d);
        if Step(d) == 0 { StepInjective(d); }
      }
    }
  }

  lemma NoBit(d: Word)
    ensures Xor(d, BitWord(false)) == d
  {
    XorZero(d);
  }

  lemma FirstDifference(c: Word, u: seq<bool>, v: seq<bool>, t: nat)
    requires t < |u| == |v| && u[..t] == v[..t] && u[t] != v[t]
    ensures var d := Step(Xor(Difference(c, u, v, t), BitWord(u[t] != v[t]))); Meets(d, Top(0)) && d != 0
  {
    XorEqual(BitRegister(c, u[..t]), BitRegister(c, v[..t]));
    OneStep();
  }

  lemma OneStep()
    ensures Step(Xor(0, BitWord(true))) == POLY && Meets(POLY, 0x8000_0000) && POLY != 0
  {
  }

  /** Every burst of up to 32 bits, wherever it lies, changes the checksum. */
  lemma BurstDetected(crc: Word, a: seq<Octet>, b: seq<Octet>, t: nat)
    requires |a| == |b| && Burst(Bits(a), Bits(b), t) && Bits(a) != Bits(b)
    ensures Checksum(crc, a) != Checksum(crc, b)
  {
    hide Step, BitWord, Bits, BitRegister;
    var u, v, c := Bits(a), Bits(b), Xor(crc, 0xffff_ffff);
    var d := Differing(u, v);
    var j := FirstDifferent(u, v, 0, d);
    StillDifferent(c, u, v, j, |u|);
    assert u[..|u|] == u && v[..|u|] == v;
    RegisterBits(c, a);
    RegisterBits(c, b);
    XorEqual(Register(c, a), Register(c, b));
    XorTwice(Register(c, a), 0xffff_ffff);
    XorTwice(Register(c, b), 0xffff_ffff);
    hide Xor;
  }

  lemma Differing(u: seq<bool>, v: seq<bool>) returns (d: nat)
    requires |u| == |v| && u != v
    ensures d < |u| && u[d] != v[d]
  {
    d :| 0 <= d < |u| && u[d] != v[d];
  }

  lemma {:induction false} FirstDifferent(u: seq<bool>, v: seq<bool>, i: nat, d: nat) returns (j: nat)
    requires i <= d < |u| == |v| && u[d] != v[d] && forall k :: 0 <= k < i ==> u[k] == v[k]
    ensures j <= d && u[j] != v[j] && forall k :: 0 <= k < j ==> u[k] == v[k]
    decreases d - i
  {
    if u[i] != v[i] {
      j := i;
    } else {
      j := FirstDifferent(u, v, i + 1, d);
    }
  }

  // ----------------------------------------------------- in terms of bytes

  lemma ByteInjective(a: Octet, b: Octet)
    requires LowBits(a, 8) == LowBits(b, 8)
    ensures a == b
  {
    hide Steps, Xor, LowBits, BitRegister;
    ByteBits(0, a);
    ByteBits(0, b);
    XorComm(0, a);
    XorComm(0, b);
    XorZero(a);
    XorZero(b);
    StepsInjective(a, b, 8);
  }

  /** Where the bits of a byte are. */
  lemma {:induction false} BitsAt(msg: seq<Octet>, i: nat)
    requires i < |msg|
    ensures Bits(msg)[8 * i..8 * i + 8] == LowBits(msg[i], 8)
    decreases |msg|
  {
    hide LowBits;
    var rest := msg[..|msg| - 1];
    if i < |msg| - 1 {
      BitsAt(rest, i);
      assert Bits(msg)[8 * i..8 * i + 8] == Bits(rest)[8 * i..8 * i + 8];
    }
  }

  /** Two messages of the same length that differ, and only within four
      consecutive bytes, have different checksums. */
  lemma FourBytesDetected(crc: Word, a: seq<Octet>, b: seq<Octet>, p: nat)
    requires |a| == |b| && a != b && forall i :: 0 <= i < |a| && !(p <= i < p + 4) ==> a[i] == b[i]
    ensures Checksum(crc, a) != Checksum(crc, b)
  {
    hide LowBits, Bits, Checksum;
    var d :| 0 <= d < |a| && a[d] != b[d];
    BitsAt(a, d);
    BitsAt(b, d);
    if Bits(a) == Bits(b) { ByteInjective(a[d], b[d]); }
    forall i | 0 <= i < |Bits(a)| && !(8 * p <= i < 8 * p + 32) ensures Bits(a)[i] == Bits(b)[i] {
      SameBit(a, b, i);
    }
    BurstDetected(crc, a, b, 8 * p);
  }

  lemma SameBit(a: seq<Octet>, b: seq<Octet>, i: nat)
    requires |a| == |b| && i < 8 * |a| && a[i / 8] == b[i / 8]
    ensures Bits(a)[i] == Bits(b)[i]
  {
    hide LowBits, Bits;
    var k := i / 8;
    BitsAt(a, k);
    BitsAt(b, k);
    assert Bits(a)[8 * k..8 * k + 8][i - 8 * k] == Bits(a)[i] && Bits(b)[8 * k..8 * k + 8][i - 8 * k] == Bits(b)[i];
  }
}
