// A whole DEFLATE stream, block by block (RFC 1951, section 3.2.3), with the
// one liberty the program takes: an empty stored block never ends the stream.
module BlocksSpec {
  import opened Words
  import opened Canonical
  import opened HuffmanTables
  import opened BitStream
  import opened SlidingWindow
  import opened InflateSpec
  import opened DynamicSpec

  /** Section 3.2.6 of RFC 1951. */
  function FixedLit(): seq<nat> {
    seq(288, (i: nat) => if i < 144 then 8 else if i < 256 then 9 else if i < 280 then 7 else 8)
  }

  function FixedDist(): seq<nat> {
    seq(30, (i: nat) => 5)
  }

  function FixedCodes(): Codes {
    Codes(FixedLit(), FixedDist())
  }

  datatype Phase =
    | Header             // at the first bit of a block
    | Stored(left: nat)  // inside a stored block
    | Coded(c: Codes)    // inside a compressed block
    | Dynamic            // at the header of a dynamic block
    | Finished
    | Broken

  datatype Stream = Stream(phase: Phase, last: bool, pos: nat, hist: seq<Byte>)

  /** The next byte boundary. */
  function Aligned(pos: nat): nat {
    (pos + 7) / 8 * 8
  }

  /** Where a block's end leads. */
  function AfterBlock(last: bool, pos: nat, hist: seq<Byte>): Stream {
    Stream(if last then Finished else Header, last, pos, hist)
  }

  /** `((~b) >> 16) == (b & 0xffff)` for a 32-bit word. */
  predicate LengthsMatch(word: nat) {
    65535 - Shr(16, word) == Low(16, word)
  }

  /** The second length has to be the complement of the first. */
  lemma LengthsPair(len: nat, nlen: nat)
    requires len < 65536 && nlen < 65536
    ensures LengthsMatch(len + 65536 * nlen) <==> len + nlen == 65535
  {
    Recombine(16, nlen, len);
    assert Pow2(16) == 65536 by { Pow2Add(8, 8); assert Pow2(8) == 256; }
  }

  /** Reading a block header. */
  function HeaderStep(input: seq<Byte>, s: Stream): Stream {
    var t := Low(3, Bits(input, s.pos));
    var last := t % 2 == 1;
    match t / 2
    case 0 =>
      var word := Low(32, Bits(input, Aligned(s.pos + 3)));
      if !LengthsMatch(word) then Stream(Broken, last, s.pos, s.hist)
      else Stream(if Low(16, word) > 0 then Stored(Low(16, word)) else Header, last, Aligned(s.pos + 3) + 32, s.hist)
    case 1 => Stream(Coded(FixedCodes()), last, s.pos + 3, s.hist)
    case 2 => Stream(Dynamic, last, s.pos + 3, s.hist)
    case _ => Stream(Broken, last, s.pos, s.hist)
  }

  /** A header is broken exactly if its type is 3, or if it is that of a stored block
      whose two lengths are not complementary. */
  lemma HeaderBroken(input: seq<Byte>, s: Stream)
    ensures var b := Bits(input, s.pos);
            var word := Low(32, Bits(input, Aligned(s.pos + 3)));
            HeaderStep(input, s).phase == Broken <==>
              (Low(1, Shr(1, b)) == 1 && Low(1, Shr(2, b)) == 1)
              || (Low(1, Shr(1, b)) == 0 && Low(1, Shr(2, b)) == 0 && Low(16, word) + Shr(16, word) != 65535)
  {
    var b := Bits(input, s.pos);
    HeaderBits(b);
    hide Low, Shr, Bits, Aligned;
  }

  lemma HeaderBits(b: nat)
    ensures Low(3, b) == Low(1, b) + 2 * Low(1, Shr(1, b)) + 4 * Low(1, Shr(2, b))
    ensures Low(1, b) < 2 && Low(1, Shr(1, b)) < 2 && Low(1, Shr(2, b)) < 2
  {
    OneBit(b);
    OneBit(b / 2);
    OneBit(b / 2 / 2);
    assert Shr(1, b) == Shr(0, b / 2) == b / 2;
    assert Shr(2, b) == Shr(1, b / 2) == Shr(0, b / 2 / 2) == b / 2 / 2;
    assert Low(3, b) == b % 2 + 2 * (b / 2 % 2 + 2 * (b / 2 / 2 % 2));
  }

  lemma OneBit(b: nat)
    ensures Low(1, b) == b % 2
  {
  }

  /** One stored byte. */
  function StoredStep(input: seq<Byte>, s: Stream): Stream
    requires s.phase.Stored?
  {
    var hist := s.hist + [Low(8, Bits(input, s.pos))];
    if s.phase.left <= 1 then AfterBlock(s.last, s.pos + 8, hist)
    else Stream(Stored(s.phase.left - 1), s.last, s.pos + 8, hist)
  }

  /** A block header, a stored byte, a symbol or the code lengths of a block. */
  ghost function StreamStep(input: seq<Byte>, s: Stream): Stream {
    match s.phase
    case Header => HeaderStep(input, s)
    case Stored(_) => StoredStep(input, s)
    case Coded(c) =>
      (match Step(c, input, State(s.pos, s.hist))
       case Going(t) => Stream(s.phase, s.last, t.pos, t.hist)
       case Ended(t) => AfterBlock(s.last, t.pos, t.hist)
       case Failed(t) => Stream(Broken, s.last, t.pos, t.hist))
    case Dynamic =>
      (match ReadPreamble(input, s.pos)
       case Preamble(c, end) => Stream(Coded(c), s.last, end, s.hist)
       case _ => Stream(Broken, s.last, s.pos, s.hist))
    case _ => s
  }

  ghost function StreamRun(input: seq<Byte>, s: Stream, n: nat): Stream {
    if n == 0 then s else StreamStep(input, StreamRun(input, s, n - 1))
  }

  ghost predicate Leads(input: seq<Byte>, s: Stream, t: Stream) {
    exists n: nat :: StreamRun(input, s, n) == t
  }

  lemma LeadsStart(input: seq<Byte>, s: Stream)
    ensures Leads(input, s, s)
  {
    assert StreamRun(input, s, 0) == s;
  }

  lemma LeadsStep(input: seq<Byte>, s: Stream, t: Stream)
    requires Leads(input, s, t)
    ensures Leads(input, s, StreamStep(input, t))
  {
    var n: nat :| StreamRun(input, s, n) == t;
    assert StreamRun(input, s, n + 1) == StreamStep(input, t);
  }

  lemma {:induction false} StreamSplit(input: seq<Byte>, s: Stream, m: nat, n: nat)
    ensures StreamRun(input, s, m + n) == StreamRun(input, StreamRun(input, s, m), n)
  {
    hide StreamStep;
    if n > 0 { StreamSplit(input, s, m, n - 1); }
  }

  lemma LeadsTrans(input: seq<Byte>, s: Stream, t: Stream, r: Stream)
    requires Leads(input, s, t) && Leads(input, t, r)
    ensures Leads(input, s, r)
  {
    var m: nat :| StreamRun(input, s, m) == t;
    var n: nat :| StreamRun(input, t, n) == r;
    StreamSplit(input, s, m, n);
  }

  /** Symbol steps inside a block are stream steps. */
  lemma {:induction false} SymbolsLead(input: seq<Byte>, c: Codes, last: bool, s: State, n: nat)
    requires Run(c, input, s, n).Going?
    ensures var t := Run(c, input, s, n).s;
            StreamRun(input, Stream(Coded(c), last, s.pos, s.hist), n) == Stream(Coded(c), last, t.pos, t.hist)
  {
    hide Step;
    if n > 0 { SymbolsLead(input, c, last, s, n - 1); }
  }

  lemma ReachesLeads(input: seq<Byte>, c: Codes, last: bool, s: State, t: State)
    requires Reaches(c, input, s, Going(t))
    ensures Leads(input, Stream(Coded(c), last, s.pos, s.hist), Stream(Coded(c), last, t.pos, t.hist))
  {
    var n: nat :| Run(c, input, s, n) == Going(t);
    SymbolsLead(input, c, last, s, n);
  }

  /** Everything the stream leads the program to read is decided by its codes, and
      no compressed block uses a reserved length code. */
  ghost predicate StreamClean(input: seq<Byte>, s: Stream) {
    forall n: nat :: StateClean(input, StreamRun(input, s, n))
  }

  ghost predicate StateClean(input: seq<Byte>, s: Stream) {
    (s.phase.Coded? ==> CleanAt(s.phase.c, input, State(s.pos, s.hist)))
    && (s.phase.Dynamic? ==> ReadPreamble(input, s.pos) != Undecided)
  }

  lemma CleanHere(input: seq<Byte>, s: Stream, t: Stream)
    requires StreamClean(input, s) && Leads(input, s, t)
    ensures StateClean(input, t)
  {
    var m: nat :| StreamRun(input, s, m) == t;
  }

  lemma BlockClean(input: seq<Byte>, s: Stream, t: Stream)
    requires StreamClean(input, s) && Leads(input, s, t) && t.phase.Coded?
    ensures Clean(t.phase.c, input, State(t.pos, t.hist))
  {
    var m: nat :| StreamRun(input, s, m) == t;
    var c := t.phase.c;
    forall n: nat | Run(c, input, State(t.pos, t.hist), n).Going?
      ensures CleanAt(c, input, Run(c, input, State(t.pos, t.hist), n).s)
    {
      SymbolsLead(input, c, t.last, State(t.pos, t.hist), n);
      StreamSplit(input, s, m, n);
      assert StateClean(input, StreamRun(input, s, m + n));
    }
  }
}
