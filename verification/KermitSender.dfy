// The other end of the line: packets as a sender writes them are read as what
// they say, and a file that is sent arrives.
module KermitSender {
  import opened Kermit
  import opened KermitTheorems

  // ------------------------------------------------------- packets on the line

  /** Data for a short packet: the length character counts three more. */
  const SHORT_DATA := 91

  /** Data for a long packet, whose length is two characters to base 95 and counts
      the check character. */
  const LONG_DATA := 95 * 95 - 2

  /** No character stands for this number or a greater one. */
  const MAX_NUMBER := 256 - 32

  predicate Sendable(m: Message) {
    !Control(m.kind) && |m.data| <= LONG_DATA && forall i :: 0 <= i < |m.data| ==> !Control(m.data[i])
  }

  function Head(m: Message, n: nat): seq<Byte>
    requires Sendable(m)
  {
    if |m.data| <= SHORT_DATA then [ToChar(|m.data| + 3), ToChar(n), m.kind]
    else
      var h := [ToChar(0), ToChar(n), m.kind, ToChar((|m.data| + 1) / 95), ToChar((|m.data| + 1) % 95)];
      h + [CheckChar(Sum(h))]
  }

  /** Start character, head, data, check character and end of line. */
  function PacketBytes(m: Message, n: nat): (r: seq<Byte>)
    requires Sendable(m)
    ensures |r| > 0 && r[0] == START_CHAR
  {
    [START_CHAR] + Head(m, n) + m.data + [CheckChar(Sum(Head(m, n)) + Sum(m.data)), END_CHAR]
  }

  /** The line has `bytes` at `pos`. */
  ghost predicate At(input: seq<Byte>, pos: nat, bytes: seq<Byte>) {
    pos + |bytes| <= |input| && input[pos..pos + |bytes|] == bytes
  }

  lemma AtSplit(input: seq<Byte>, pos: nat, a: seq<Byte>, b: seq<Byte>)
    ensures At(input, pos, a + b) <==> At(input, pos, a) && At(input, pos + |a|, b)
  {
    var c := a + b;
    if At(input, pos, c) {
      forall i | 0 <= i < |a| ensures input[pos..pos + |a|][i] == a[i] { assert input[pos..pos + |c|][i] == c[i]; }
      forall i | 0 <= i < |b|
        ensures input[pos + |a|..pos + |a| + |b|][i] == b[i]
      {
        assert input[pos..pos + |c|][|a| + i] == c[|a| + i];
      }
    }
    if At(input, pos, a) && At(input, pos + |a|, b) {
      forall i | 0 <= i < |c| ensures input[pos..pos + |c|][i] == c[i] {
        if i < |a| { assert input[pos..pos + |a|][i] == a[i]; }
          else { assert input[pos + |a|..pos + |a| + |b|][i - |a|] == b[i - |a|]; }
      }
    }
  }

  lemma AtChar(input: seq<Byte>, pos: nat, bytes: seq<Byte>, i: nat)
    requires At(input, pos, bytes) && i < |bytes|
    ensures pos + i < |input| && input[pos + i] == bytes[i]
  {
    assert input[pos..pos + |bytes|][i] == bytes[i];
  }

  lemma CharsValid(x: nat)
    requires x < MAX_NUMBER
    ensures !Control(ToChar(x)) && UnChar(ToChar(x)) == x && ToChar(x) == x + 32
  {
  }

  lemma {:induction false} AllValid(input: seq<Byte>, pos: nat, data: seq<Byte>)
    requires At(input, pos, data) && forall i :: 0 <= i < |data| ==> !Control(data[i])
    ensures ValidChars(input, pos, |data|) == |data|
    decreases |data|
  {
    if |data| > 0 {
      AtChar(input, pos, data, 0);
      assert [data[0]] + data[1..] == data;
      AtSplit(input, pos, [data[0]], data[1..]);
      AllValid(input, pos + 1, data[1..]);
    }
  }

  /** Data, check character and end of line are read as they were written. */
  lemma BodyRead(input: seq<Byte>, pos: nat, data: seq<Byte>, sum: nat, end: seq<Byte>)
    requires At(input, pos, data + end) && end == [CheckChar(sum + Sum(data)), END_CHAR]
             && forall i :: 0 <= i < |data| ==> !Control(data[i])
    ensures Body(input, pos, |data| + 1, sum) == (data, Good, pos + |data| + 2)
  {
    hide CheckChar, Sum, ValidChars, Ending, Body, At;
    AtSplit(input, pos, data, end);
    AllValid(input, pos, data);
    EndingRead(input, pos + |data|, sum + Sum(data), end);
    AtIs(input, pos, data);
    BodyIs(input, pos, data, sum);
  }

  lemma AtIs(input: seq<Byte>, pos: nat, bytes: seq<Byte>)
    requires At(input, pos, bytes)
    ensures pos + |bytes| <= |input| && input[pos..pos + |bytes|] == bytes
  {
  }

  lemma BodyIs(input: seq<Byte>, pos: nat, data: seq<Byte>, sum: nat)
    requires pos + |data| <= |input| && input[pos..pos + |data|] == data && ValidChars(input, pos, |data|) == |data|
    requires Ending(input, pos + |data|, sum + Sum(data)) == (Good, pos + |data| + 2)
    ensures Body(input, pos, |data| + 1, sum) == (data, Good, pos + |data| + 2)
  {
    hide ValidChars, Ending, Sum, CharStatus;
    if |data| == 0 { assert data == []; }
  }

  lemma EndingRead(input: seq<Byte>, pos: nat, sum: nat, end: seq<Byte>)
    requires At(input, pos, end) && end == [CheckChar(sum), END_CHAR]
    ensures Ending(input, pos, sum) == (Good, pos + 2)
  {
    CheckValid(sum);
    hide CheckChar;
    AtChar(input, pos, end, 0);
    AtChar(input, pos, end, 1);
  }

  lemma {:induction false} SumJoin(a: seq<Byte>, b: seq<Byte>)
    ensures Sum(a + b) == Sum(a) + Sum(b)
  {
    if |b| == 0 {
      assert a + b == a;
    } else {
      assert (a + b)[..|a + b| - 1] == a + b[..|b| - 1];
      SumJoin(a, b[..|b| - 1]);
    }
  }

  /** A short packet is read as its message. */
  lemma ShortRead(input: seq<Byte>, pos: nat, m: Message, n: nat, n0: nat)
    requires Sendable(m) && |m.data| <= SHORT_DATA && n < MAX_NUMBER && At(input, pos, PacketBytes(m, n))
    ensures Parse(input, pos + 1, n0) == Packet(Good, n, m.kind, m.data, Good, pos + |PacketBytes(m, n)|)
  {
    hide CheckChar, Body, ToChar, UnChar;
    var h := Head(m, n);
    var end := [CheckChar(Sum(h) + Sum(m.data)), END_CHAR];
    assert PacketBytes(m, n) == [START_CHAR] + (h + (m.data + end));
    AtSplit(input, pos, [START_CHAR], h + (m.data + end));
    AtSplit(input, pos + 1, h, m.data + end);
    forall i | 0 <= i < 3 ensures input[pos + 1 + i] == h[i] && pos + 1 + i < |input| { AtChar(input, pos + 1, h, i); }
    assert input[pos + 1] == h[0] && input[pos + 2] == h[1] && input[pos + 3] == h[2];
    CharsValid(|m.data| + 3);
    CharsValid(n);
    SumThree(h[0], h[1], h[2]);
    BodyRead(input, pos + 4, m.data, Sum(h), end);
  }

  /** A long packet is read as its message. */
  lemma LongRead(input: seq<Byte>, pos: nat, m: Message, n: nat, n0: nat)
    requires Sendable(m) && |m.data| > SHORT_DATA && n < 64 && At(input, pos, PacketBytes(m, n))
    ensures Parse(input, pos + 1, n0) == Packet(Good, n, m.kind, m.data, Good, pos + |PacketBytes(m, n)|)
  {
    hide CheckChar, Body, ToChar, UnChar, LongHeader;
    var h := Head(m, n);
    var end := [CheckChar(Sum(h) + Sum(m.data)), END_CHAR];
    assert PacketBytes(m, n) == [START_CHAR] + (h + (m.data + end));
    AtSplit(input, pos, [START_CHAR], h + (m.data + end));
    AtSplit(input, pos + 1, h, m.data + end);
    forall i | 0 <= i < 3 ensures input[pos + 1 + i] == h[i] && pos + 1 + i < |input| { AtChar(input, pos + 1, h, i); }
    assert input[pos + 1] == h[0] && input[pos + 2] == h[1] && input[pos + 3] == h[2];
    CharsValid(0);
    CharsValid(n);
    HeaderRead(input, pos, m, n);
    BodyRead(input, pos + 7, m.data, Sum(h), end);
  }

  lemma HeaderRead(input: seq<Byte>, pos: nat, m: Message, n: nat)
    requires Sendable(m) && |m.data| > SHORT_DATA && n < 64 && At(input, pos + 1, Head(m, n))
    ensures LongHeader(input, pos + 4, Head(m, n)[0] as nat + Head(m, n)[1] as nat + m.kind as nat)
            == (Good, pos + 7, |m.data| + 1, Sum(Head(m, n)))
  {
    hide CheckChar, ToChar, UnChar;
    var h := Head(m, n);
    var first := h[..5];
    var c := CheckChar(Sum(first));
    assert first == [ToChar(0), ToChar(n), m.kind, ToChar((|m.data| + 1) / 95), ToChar((|m.data| + 1) % 95)]
           && h == first + [c];
    forall i | 0 <= i < 6 ensures pos + 1 + i < |input| && input[pos + 1 + i] == h[i] { AtChar(input, pos + 1, h, i); }
    assert input[pos + 4] == h[3] && input[pos + 5] == h[4] && input[pos + 6] == h[5];
    CharsValid((|m.data| + 1) / 95);
    CharsValid((|m.data| + 1) % 95);
    SumFive(first);
    SumJoin(first, [c]);
    SumOne(c);
    CheckValid(Sum(first));
  }

  lemma SumOne(c: Byte)
    ensures Sum([c]) == c
  {
    assert [c][..0] == [];
  }

  lemma SumFive(s: seq<Byte>)
    requires |s| == 5
    ensures Sum(s) == s[0] as nat + s[1] as nat + s[2] as nat + s[3] as nat + s[4] as nat
  {
    assert s == [s[0], s[1], s[2]] + [s[3]] + [s[4]];
    SumJoin([s[0], s[1], s[2]] + [s[3]], [s[4]]);
    SumJoin([s[0], s[1], s[2]], [s[3]]);
    SumThree(s[0], s[1], s[2]);
    SumOne(s[3]);
    SumOne(s[4]);
  }

  /** A packet that has been sent is found and read as its message. */
  lemma PacketRead(input: seq<Byte>, pos: nat, m: Message, n: nat, n0: nat)
    requires Sendable(m) && n < 64 && At(input, pos, PacketBytes(m, n))
    ensures Hunt(input, pos) == pos + 1
    ensures Parse(input, pos + 1, n0) == Packet(Good, n, m.kind, m.data, Good, pos + |PacketBytes(m, n)|)
  {
    hide PacketBytes, Parse;
    AtChar(input, pos, PacketBytes(m, n), 0);
    if |m.data| <= SHORT_DATA { ShortRead(input, pos, m, n, n0); } else { LongRead(input, pos, m, n, n0); }
  }

  // ---------------------------------------------------------------- a dialogue

  function Copies(p: seq<Byte>, t: nat): seq<Byte> {
    if t == 0 then [] else p + Copies(p, t - 1)
  }

  /** Messages that end a transmission once, at its end. */
  predicate WholeTransfer(msgs: seq<Message>) {
    |msgs| > 0 && (forall k :: 0 <= k < |msgs| ==> Sendable(msgs[k]))
    && forall k :: 0 <= k < |msgs| ==> (msgs[k].kind == BREAK_TYPE <==> k + 1 == |msgs|)
  }

  /** Everything a sender writes from message `k` on: every packet `times` over,
      as often as its acknowledgement is lost. */
  function LineFrom(msgs: seq<Message>, times: seq<nat>, k: nat): seq<Byte>
    requires k <= |msgs| == |times| && forall i :: 0 <= i < |msgs| ==> Sendable(msgs[i])
    decreases |msgs| - k
  {
    if k == |msgs| then [] else Copies(PacketBytes(msgs[k], k % 64), times[k]) + LineFrom(msgs, times, k + 1)
  }

  /** What is sent is a dialogue, from any copy of any packet on. */
  lemma {:induction false} SentContinues(s: State, input: seq<Byte>, pos: nat, msgs: seq<Message>, times: seq<nat>,
                                         k: nat, t: nat, done: bool)
    requires WholeTransfer(msgs) && |times| == |msgs| && (forall i :: 0 <= i < |times| ==> times[i] > 0) && k < |msgs|
             && t > 0
    requires At(input, pos, Copies(PacketBytes(msgs[k], k % 64), t) + LineFrom(msgs, times, k + 1))
    ensures var from := Hunt(input, pos);
            from > pos && var p := Parse(input, from, s.n);
            pos < p.at <= |input| && Continues(s, input, p, msgs, k, done, true, pos)
    decreases |input| - pos
  {
    hide PacketBytes, Parse, Hunt, Turn, At, CheckChar, ToChar, UnChar, Sum, Sendable;
    var m, b := msgs[k], PacketBytes(msgs[k], k % 64);
    var rest := LineFrom(msgs, times, k + 1);
    assert Copies(b, t) + rest == b + (Copies(b, t - 1) + rest);
    AtSplit(input, pos, b, Copies(b, t - 1) + rest);
    AtIs(input, pos, b);
    PacketRead(input, pos, m, k % 64, s.n);
    var p := Parse(input, pos + 1, s.n);
    if m.kind != BREAK_TYPE {
      var u := Turn(s, p);
      if t > 1 {
        SentContinues(u, input, p.at, msgs, times, k, t - 1, true);
      } else {
        assert Copies(b, t - 1) + rest == rest;
        SentContinues(u, input, p.at, msgs, times, k + 1, times[k + 1], true);
      }
    }
  }

  /** A transfer as a sender writes it is a complete dialogue. */
  lemma SentDialogue(start: int, mem: Memory, msgs: seq<Message>, times: seq<nat>)
    requires WholeTransfer(msgs) && |times| == |msgs| && forall i :: 0 <= i < |times| ==> times[i] > 0
    ensures Dialogue(Initial(start, mem), LineFrom(msgs, times, 0), 0, msgs, 0, false, true)
  {
    hide PacketBytes, Parse, Hunt, Turn, Copies;
    var input := LineFrom(msgs, times, 0);
    assert input[0..|input|] == input;
    SentContinues(Initial(start, mem), input, 0, msgs, times, 0, times[0], false);
  }

  // ------------------------------------------------------------------ a file

  /** What a sender says of itself: the longest packet and the time-out it can
      take, the padding and the end of line it needs, the quote it will use, and
      whatever else. */
  datatype SendInit = SendInit(maxl: nat, time: nat, npad: nat, padc: Byte, eol: nat, qctl: Byte, more: seq<Byte>)

  /** Control characters travel as printable ones (ctl). */
  function Ctl(c: Byte): Byte {
    if c < 64 then c + 64 else if c < 128 then c - 64 else c
  }

  predicate InitOK(p: SendInit) {
    p.maxl < MAX_NUMBER && p.time < MAX_NUMBER && p.npad < MAX_NUMBER && p.eol < MAX_NUMBER
    && (p.padc < 32 || p.padc == 127) && !Control(p.qctl) && forall i :: 0 <= i < |p.more| ==> !Control(p.more[i])
  }

  /** The characters of a send-initiate packet: MAXL, TIME, NPAD, PADC, EOL, QCTL
      and so on, of which a sender may leave out any at the end. */
  function InitData(p: SendInit): seq<Byte> {
    [ToChar(p.maxl), ToChar(p.time), ToChar(p.npad), Ctl(p.padc), ToChar(p.eol), p.qctl] + p.more
  }

  /** The receiver goes by what the sender has said, and by the usual values for
      what it has left out. */
  lemma InitRead(p: SendInit, k: nat)
    requires InitOK(p) && k <= |InitData(p)|
    ensures var data := InitData(p)[..k];
            QuoteOf(data) == (if k >= 6 then p.qctl else K_ESCAPE)
            && WishesOf(Asked(data)) == Wishes(if k >= 3 then p.npad else 0, if k >= 4 then p.padc else 0,
                                               if k >= 5 then p.eol else END_CHAR)
            && forall i :: 0 <= i < k ==> !Control(data[i])
  {
    CharsValid(p.maxl);
    CharsValid(p.time);
    CharsValid(p.npad);
    CharsValid(p.eol);
    assert Ktrans(Ctl(p.padc)) == p.padc && !Control(Ctl(p.padc));
    hide ToChar, UnChar, Ktrans, Ctl;
  }

  /** What the receiver says of itself: the longest packets that it takes, no
      padding, a carriage return, the usual quote, and long packets. */
  const OWN: SendInit :=
    SendInit(94, 1, 0, 0, END_CHAR, K_ESCAPE, [0x4E, 0x31, 0x4E, ToChar(2), ToChar(0), ToChar(94), ToChar(94)])

  /** The answer is as many of the parameters, and all from the tenth on; a sender
      that goes by them sends packets that can be read, short ones and long ones. */
  lemma AnswerIs(n: nat, data: seq<Byte>)
    ensures InitOK(OWN) && |InitData(OWN)| == 13
            && ReplyData(Parms(n, Asked(data))) == InitData(OWN)[..if |data| < 10 then |data| else 13]
    ensures OWN.maxl == SHORT_DATA + 3 && UnChar(OWN.more[5]) * 95 + UnChar(OWN.more[6]) == LONG_DATA + 1
  {
    var all := [126, 33, 32, 64, 45, 35, 78, 49, 78, 34, 32, 126, 126];
    assert InitData(OWN) == all;
    assert all[..13] == all;
  }

  /** A send-initiate packet, the quoted file cut into pieces of any sizes, and the
      end of the transmission. */
  function FileMessages(init: seq<Byte>, pieces: seq<seq<Byte>>): seq<Message> {
    [Message(SEND_TYPE, init)] + seq(|pieces|,
      i requires 0 <= i < |pieces| => Message(DATA_TYPE, pieces[i])) + [Message(BREAK_TYPE, [])]
  }

  function Joined(pieces: seq<seq<Byte>>, k: nat): seq<Byte>
    requires k <= |pieces|
  {
    if k == 0 then [] else Joined(pieces, k - 1) + pieces[k - 1]
  }

  lemma {:induction false} PayloadIs(init: seq<Byte>, pieces: seq<seq<Byte>>, k: nat)
    requires k <= |pieces|
    ensures Payload(FileMessages(init, pieces), k + 1) == Joined(pieces, k)
  {
    var msgs := FileMessages(init, pieces);
    if k == 0 {
      assert Payload(msgs, 0) + [] == [];
    } else {
      PayloadIs(init, pieces, k - 1);
      assert msgs[k] == Message(DATA_TYPE, pieces[k - 1]);
    }
  }

  /** A sender says as much of itself as it likes; a file that is quoted with the
      quote it has said, cut into packets of any sizes and sent, every packet any
      number of times, is in memory at the end. */
  lemma FileSent(start: int, mem: Memory, p: SendInit, said: nat, file: seq<Byte>, pieces: seq<seq<Byte>>,
                 times: seq<nat>)
    requires InitOK(p) && said <= |InitData(p)| <= LONG_DATA
    requires var q := if said >= 6 then p.qctl else K_ESCAPE;
             q / 32 % 4 != 2 && q % 128 != 63 && Joined(pieces, |pieces|) == Encode(q, file)
    requires forall i :: 0 <= i < |pieces| ==> |pieces[i]| <= LONG_DATA
    requires |times| == |pieces| + 2 && forall i :: 0 <= i < |times| ==> times[i] > 0
    ensures WholeTransfer(FileMessages(InitData(p)[..said], pieces))
    ensures var r := Run(Initial(start, mem), LineFrom(FileMessages(InitData(p)[..said], pieces), times, 0), 0);
            Holds(r.place.mem, start, file) && r.place.point == Point(false, start + |file|)
  {
    InitRead(p, said);
    hide Run, Encodes, Encode, Dialogue, FileMessages, LineFrom, Payload, Settled, Holds, InitData, InitOK;
    var init, q := InitData(p)[..said], if said >= 6 then p.qctl else K_ESCAPE;
    var msgs := FileMessages(init, pieces);
    QuoteShows(p);
    EncodeLegal(q, file);
    FileWhole(init, pieces);
    SentDialogue(start, mem, msgs, times);
    FilePayload(init, pieces);
    FileArrives(LineFrom(msgs, times, 0), start, mem, msgs, q, file);
  }

  lemma QuoteShows(p: SendInit)
    requires InitOK(p)
    ensures !Control(p.qctl) && !Control(K_ESCAPE)
  {
  }

  lemma FileWhole(init: seq<Byte>, pieces: seq<seq<Byte>>)
    requires |init| <= LONG_DATA && forall i :: 0 <= i < |init| ==> !Control(init[i])
    requires forall i :: 0 <= i < |pieces| ==> |pieces[i]| <= LONG_DATA
    requires forall i :: 0 <= i < |Joined(pieces, |pieces|)| ==> !Control(Joined(pieces, |pieces|)[i])
    ensures WholeTransfer(FileMessages(init, pieces)) && |FileMessages(init, pieces)| == |pieces| + 2
  {
    hide Joined;
    forall i | 0 <= i < |pieces| ensures Sendable(Message(DATA_TYPE, pieces[i])) {
      forall j | 0 <= j < |pieces[i]| ensures !Control(pieces[i][j]) { PieceInside(pieces, |pieces|, i, j); }
    }
  }

  lemma FilePayload(init: seq<Byte>, pieces: seq<seq<Byte>>)
    ensures Settled(FileMessages(init, pieces), QuoteOf(init))
    ensures Payload(FileMessages(init, pieces), |FileMessages(init, pieces)|) == Joined(pieces, |pieces|)
  {
    PayloadIs(init, pieces, |pieces|);
    var msgs := FileMessages(init, pieces);
    assert msgs[|pieces| + 1].kind == BREAK_TYPE;
    assert Payload(msgs, |msgs|) == Payload(msgs, |pieces| + 1) + [];
  }

  lemma {:induction false} PieceInside(pieces: seq<seq<Byte>>, k: nat, i: nat, j: nat)
    requires i < k <= |pieces| && j < |pieces[i]|
    ensures pieces[i][j] in Joined(pieces, k)
  {
    if i < k - 1 { PieceInside(pieces, k - 1, i, j); }
  }

  // ------------------------------------------------------------ known lines

  /** What senders usually say. */
  const USUAL: SendInit := SendInit(94, 10, 0, 0, END_CHAR, K_ESCAPE, [0x4E, 0x31])

  /** `~* @-#N1` in a packet numbered 0, character by character. */
  lemma UsualInit()
    ensures InitData(USUAL) == [0x7E, 0x2A, 0x20, 0x40, 0x2D, 0x23, 0x4E, 0x31] && InitOK(USUAL)
    ensures PacketBytes(Message(SEND_TYPE, InitData(USUAL)), 0) ==
            [0x01, 0x2B, 0x20, 0x53, 0x7E, 0x2A, 0x20, 0x40, 0x2D, 0x23, 0x4E, 0x31, 0x56, 0x0D]
  {
    UsualSums();
    var data := InitData(USUAL);
    assert data == [0x7E, 0x2A, 0x20, 0x40, 0x2D, 0x23, 0x4E, 0x31];
    hide Sum, InitData;
    var m := Message(SEND_TYPE, data);
    assert Head(m, 0) == [0x2B, 0x20, 0x53] && CheckChar(629) == 0x56;
  }

  /** A new line is quoted as `#M#J`; in a packet numbered 1. */
  lemma UsualText()
    ensures Encode(K_ESCAPE, [0x0D, 0x0A]) == [0x23, 0x4D, 0x23, 0x4A]
    ensures PacketBytes(Message(DATA_TYPE, [0x23, 0x4D, 0x23, 0x4A]), 1) ==
            [0x01, 0x27, 0x21, 0x44, 0x23, 0x4D, 0x23, 0x4A, 0x4A, 0x0D]
  {
    NewLine();
    UsualSums();
    hide Sum, Encode;
    var m := Message(DATA_TYPE, [0x23, 0x4D, 0x23, 0x4A]);
    assert Head(m, 1) == [0x27, 0x21, 0x44] && CheckChar(361) == 0x4A;
  }

  /** The end of a transmission, numbered 2. */
  lemma UsualEnd()
    ensures PacketBytes(Message(BREAK_TYPE, []), 2) == [0x01, 0x23, 0x22, 0x42, 0x29, 0x0D]
  {
    SumThree(0x23, 0x22, 0x42);
    assert Sum([]) == 0;
    hide Sum;
    var m := Message(BREAK_TYPE, []);
    assert Head(m, 2) == [0x23, 0x22, 0x42] && CheckChar(135) == 0x29;
  }

  /** The head of a long packet: 1001 to base 95 is 10 and 51. */
  lemma LongHeadIs(data: seq<Byte>)
    requires |data| == 1000 && forall i :: 0 <= i < |data| ==> !Control(data[i])
    ensures Head(Message(DATA_TYPE, data), 0) == [0x20, 0x20, 0x44, 0x2A, 0x53, 0x21]
  {
    SumThree(0x20, 0x20, 0x44);
    SumTwo(0x2A, 0x53);
    SumJoin([0x20, 0x20, 0x44], [0x2A, 0x53]);
    assert [0x20, 0x20, 0x44] + [0x2A, 0x53] == [0x20, 0x20, 0x44, 0x2A, 0x53];
    hide Sum;
    assert CheckChar(257) == 0x21;
  }

  lemma SumTwo(a: Byte, b: Byte)
    ensures Sum([a, b]) == a as nat + b as nat
  {
    assert [a, b][..1] == [a] && [a][..0] == [];
    assert Sum([a]) == a;
  }

  lemma NewLine()
    ensures Encode(K_ESCAPE, [0x0D, 0x0A]) == [0x23, 0x4D, 0x23, 0x4A]
  {
    var nl: seq<Byte> := [0x0D, 0x0A];
    assert nl[..1] == [0x0D] && [0x0D][..0] == [];
    assert Encode(K_ESCAPE, [0x0D]) == [0x23, 0x4D];
  }

  lemma UsualSums()
    ensures Sum([0x2B, 0x20, 0x53]) == 158 && Sum([0x7E, 0x2A, 0x20, 0x40, 0x2D, 0x23, 0x4E, 0x31]) == 471
    ensures Sum([0x27, 0x21, 0x44]) == 140 && Sum([0x23, 0x4D, 0x23, 0x4A]) == 221
  {
    SumThree(0x2B, 0x20, 0x53);
    SumThree(0x27, 0x21, 0x44);
    SumFour(0x7E, 0x2A, 0x20, 0x40);
    SumFour(0x2D, 0x23, 0x4E, 0x31);
    SumFour(0x23, 0x4D, 0x23, 0x4A);
    SumJoin([0x7E, 0x2A, 0x20, 0x40], [0x2D, 0x23, 0x4E, 0x31]);
    assert [0x7E, 0x2A, 0x20, 0x40] + [0x2D, 0x23, 0x4E, 0x31] == [0x7E, 0x2A, 0x20, 0x40, 0x2D, 0x23, 0x4E, 0x31];
  }

  lemma SumFour(a: Byte, b: Byte, c: Byte, d: Byte)
    ensures Sum([a, b, c, d]) == a as nat + b as nat + c as nat + d as nat
  {
    SumThree(a, b, c);
    assert [a, b, c, d][..3] == [a, b, c];
  }

  // ------------------------------------------------------ lines on which text is lost

  /** One packet of a run. */
  lemma RunStep(s: State, input: seq<Byte>, pos: nat, p: Packet)
    requires pos < |input| && input[pos] == START_CHAR && Parse(input, pos + 1, s.n) == p
    requires p.status != Starved && p.kind != BREAK_TYPE
    ensures p.at <= |input| && Run(s, input, pos) == Run(Turn(s, p), input, p.at)
  {
    hide Turn, Parse;
    ParseMoves(input, pos + 1, s.n);
  }

  /** The packet of data character `c` with number `n`, up to its check character. */
  predicate OneAt(input: seq<Byte>, pos: nat, n: nat, c: Byte) {
    pos + 7 <= |input| && n < 64 && !Control(c) && input[pos] == START_CHAR && input[pos + 1] == 0x24
    && input[pos + 2] == n + 32 && input[pos + 3] == DATA_TYPE && input[pos + 4] == c && !Control(input[pos + 5])
  }

  function OneSum(n: nat, c: Byte): nat {
    0x24 + (n + 32) + DATA_TYPE + c
  }

  lemma OneParsed(input: seq<Byte>, pos: nat, n: nat, c: Byte, n0: nat)
    requires OneAt(input, pos, n, c)
    ensures input[pos + 5] == CheckChar(OneSum(n, c)) && input[pos + 6] == END_CHAR ==>
              Parse(input, pos + 1, n0) == Packet(Good, n, DATA_TYPE, [c], Good, pos + 7)
    ensures input[pos + 5] != CheckChar(OneSum(n, c)) ==>
              Parse(input, pos + 1, n0) == Packet(Good, n, DATA_TYPE, [c], Bad, pos + 6)
  {
    hide CheckChar, Body;
    OneBody(input, pos + 4, c, 0x24 + (n + 32) + DATA_TYPE as nat);
  }

  lemma OneBody(input: seq<Byte>, pos: nat, c: Byte, sum: nat)
    requires pos + 3 <= |input| && input[pos] == c && !Control(c) && !Control(input[pos + 1])
    ensures input[pos + 1] == CheckChar(sum + c) && input[pos + 2] == END_CHAR ==>
              Body(input, pos, 2, sum) == ([c], Good, pos + 3)
    ensures input[pos + 1] != CheckChar(sum + c) ==> Body(input, pos, 2, sum) == ([c], Bad, pos + 2)
  {
    hide CheckChar, Sum;
    SumOne(c);
    assert ValidChars(input, pos, 1) == 1 && input[pos..pos + 1] == [c];
  }

  lemma FeedOne(w: Kermit.Place, quote: Byte, c: Byte)
    ensures Feed(w, quote, [c]) == CharStep(w, quote, c)
  {
    assert [c][..0] == [] && Feed(w, quote, []) == w;
  }

  /** The state after a new character has been acknowledged. */
  function Taken(s: State, n: nat, c: Byte): State {
    var (point, mem) := (Point(false, s.place.point.addr + 1), s.place.mem[s.place.point.addr := c]);
    State(Place(point, mem), s.place.point, n, n, s.quote, s.replies + [Ack(n)])
  }

  lemma OneTaken(s: State, input: seq<Byte>, pos: nat, n: nat, c: Byte)
    requires OneAt(input, pos, n, c) && input[pos + 5] == CheckChar(OneSum(n, c)) && input[pos + 6] == END_CHAR
    requires n != s.lastN && c != s.quote && !s.place.point.escape
    ensures Run(s, input, pos) == Run(Taken(s, n, c), input, pos + 7)
  {
    hide Parse, CheckChar, Feed;
    OneParsed(input, pos, n, c, s.n);
    FeedOne(s.place, s.quote, c);
    RunStep(s, input, pos, Packet(Good, n, DATA_TYPE, [c], Good, pos + 7));
  }

  /** The state after a damaged repetition. */
  function Undone(s: State, n: nat, c: Byte): State {
    State(Place(s.saved, s.place.mem[s.saved.addr := c]), s.saved, n, n, s.quote, s.replies + [Nack(n)])
  }

  lemma OneUndone(s: State, input: seq<Byte>, pos: nat, n: nat, c: Byte)
    requires OneAt(input, pos, n, c) && input[pos + 5] != CheckChar(OneSum(n, c))
    requires n == s.lastN && c != s.quote && !s.saved.escape
    ensures Run(s, input, pos) == Run(Undone(s, n, c), input, pos + 6)
  {
    hide Parse, CheckChar, Feed;
    OneParsed(input, pos, n, c, s.n);
    FeedOne(Place(s.saved, s.place.mem), s.quote, c);
    RunStep(s, input, pos, Packet(Good, n, DATA_TYPE, [c], Bad, pos + 6));
  }

  lemma Checks()
    ensures CheckChar(OneSum(0, 0x41)) == 0x2C && CheckChar(OneSum(1, 0x42)) == 0x2E
  {
  }

  /** A packet with the byte `A` is acknowledged, and then a length character is
      damaged: the byte is taken back. */
  lemma DamagedLine(start: int, mem: Memory)
    ensures var r := Run(Initial(start, mem), [0x01, 0x24, 0x20, 0x44, 0x41, 0x2C, 0x0D, 0x01, 0x00], 0);
            r.replies == [Ack(0), Nack(0)] && r.place.point == Point(false, start)
  {
    Checks();
    hide Run, Parse, CheckChar;
    var input: seq<Byte> := [0x01, 0x24, 0x20, 0x44, 0x41, 0x2C, 0x0D, 0x01, 0x00];
    OneTaken(Initial(start, mem), input, 0, 0, 0x41);
    var s := Taken(Initial(start, mem), 0, 0x41);
    var damaged := Packet(Bad, 0, NO_TYPE, [], Bad, 9);
    NoLength(input, 8, s.n);
    RunStep(s, input, 7, damaged);
    EndOfLine(Turn(s, damaged), input);
  }

  lemma NoLength(input: seq<Byte>, pos: nat, n0: nat)
    requires pos < |input| && Control(input[pos])
    ensures Parse(input, pos, n0) == Packet(Bad, n0, NO_TYPE, [], Bad, pos + 1)
  {
  }

  /** `A`, `A` again with a wrong check character, and `B`. */
  function LateInput(): (r: seq<Byte>)
    ensures |r| == 21 && OneAt(r, 0, 0, 0x41) && r[5] == 0x2C && r[6] == END_CHAR
    ensures OneAt(r, 7, 0, 0x41) && r[12] == 0x2D && r[13] == END_CHAR
    ensures OneAt(r, 14, 1, 0x42) && r[19] == 0x2E && r[20] == END_CHAR
  {
    [0x01, 0x24, 0x20, 0x44, 0x41, 0x2C, 0x0D,
     0x01, 0x24, 0x20, 0x44, 0x41, 0x2D, 0x0D,
     0x01, 0x24, 0x21, 0x44, 0x42, 0x2E, 0x0D]
  }

  /** The packet with `A` is acknowledged and then repeated and damaged, because
      the acknowledgement was late; the sender goes on with `B`, which takes the
      place of `A`. */
  lemma LateLine(start: int, mem: Memory)
    ensures var r := Run(Initial(start, mem), LateInput(), 0);
            r.replies == [Ack(0), Nack(0), Ack(1)] && r.place.point == Point(false, start + 1)
            && r.place.mem == mem[start := 0x41][start := 0x41][start := 0x42]
  {
    Checks();
    hide Run, LateInput, CheckChar, OneAt;
    var input := LateInput();
    var s0 := Initial(start, mem);
    OneTaken(s0, input, 0, 0, 0x41);
    var s1 := Taken(s0, 0, 0x41);
    OneUndone(s1, input, 7, 0, 0x41);
    var s2 := Undone(s1, 0, 0x41);
    SkipOne(s2, input, 13);
    OneTaken(s2, input, 14, 1, 0x42);
    EndOfLine(Taken(s2, 1, 0x42), input);
  }

  lemma SkipOne(s: State, input: seq<Byte>, pos: nat)
    requires pos < |input| && input[pos] != START_CHAR
    ensures Run(s, input, pos) == Run(s, input, pos + 1)
  {
    hide Turn, Parse;
    assert Hunt(input, pos) == Hunt(input, pos + 1);
  }

  lemma EndOfLine(s: State, input: seq<Byte>)
    ensures Run(s, input, |input|) == s
  {
  }
}
