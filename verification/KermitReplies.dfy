// What the receiver sends back: the sender can read every reply.
module KermitReplies {
  import opened Kermit
  import opened KermitTheorems
  import opened KermitSender

  function MessageOf(r: Reply): Message {
    Message(ReplyKind(r), ReplyData(r))
  }

  predicate NoZero(s: seq<Byte>) {
    forall i :: 0 <= i < |s| ==> s[i] != 0
  }

  lemma {:induction false} WholeString(s: seq<Byte>, rest: seq<Byte>)
    requires NoZero(s)
    ensures UpToZero(s + rest) == s + UpToZero(rest)
  {
    if |s| > 0 {
      assert (s + rest)[1..] == s[1..] + rest;
      WholeString(s[1..], rest);
      assert s == [s[0]] + s[1..];
    } else {
      assert s + rest == rest;
    }
  }

  lemma ReplyDataOK(r: Reply)
    ensures |ReplyData(r)| <= 13 && forall i :: 0 <= i < |ReplyData(r)| ==> ReplyData(r)[i] >= SPACE
  {
  }

  /** Number, kind and data, each of them a character. */
  lemma ReplyHead(r: Reply)
    requires r.n < MAX_NUMBER
    ensures Sendable(MessageOf(r)) && |ReplyData(r)| <= SHORT_DATA
    ensures var head := Head(MessageOf(r), r.n) + ReplyData(r);
            head == [ToChar(|ReplyData(r)| + 3), ToChar(r.n), ReplyKind(r)] + ReplyData(r)
            && forall i :: 0 <= i < |head| ==> head[i] >= SPACE
  {
    ReplyDataOK(r);
    hide ReplyData, Sum, CheckChar;
    CharsValid(|ReplyData(r)| + 3);
    CharsValid(r.n);
  }

  /** The check is that of the whole string. */
  lemma ReplyCoreIs(r: Reply)
    requires r.n < MAX_NUMBER
    ensures Sendable(MessageOf(r)) && |ReplyData(r)| <= SHORT_DATA
    ensures var head := Head(MessageOf(r), r.n) + ReplyData(r);
            ReplyCore(r) == [START_CHAR] + head + [CheckChar(Sum(head))] && NoZero(ReplyCore(r))
  {
    ReplyHead(r);
    hide ReplyData, Sum, CheckChar, ToChar, Head, Sendable, ReplyKind;
    var head := Head(MessageOf(r), r.n) + ReplyData(r);
    WholeString(head, []);
    assert head + [] == head && UpToZero([]) == [];
    CheckValid(Sum(head));
    hide UpToZero;
  }

  lemma Regroup(a: seq<Byte>, h: seq<Byte>, data: seq<Byte>, c: Byte, e: Byte)
    ensures a + (h + data) + [c] + [e] == a + h + data + [c, e]
  {
  }

  lemma PacketIs(m: Message, n: nat)
    requires Sendable(m)
    ensures var h := Head(m, n);
            PacketBytes(m, n) == [START_CHAR] + h + m.data + [CheckChar(Sum(h) + Sum(m.data)), END_CHAR]
  {
    hide Head, CheckChar, Sum, Sendable;
  }

  /** A reply is a short packet, as any sender would write it. */
  lemma ReplyIsPacket(r: Reply)
    requires r.n < MAX_NUMBER
    ensures Sendable(MessageOf(r)) && |ReplyData(r)| <= SHORT_DATA && NoZero(ReplyCore(r))
    ensures ReplyCore(r) + [END_CHAR] == PacketBytes(MessageOf(r), r.n)
  {
    hide ReplyData, Sum, CheckChar, ToChar, Head, Sendable, ReplyKind, ReplyCore, UpToZero, NoZero, PacketBytes;
    ReplyCoreIs(r);
    var h, data := Head(MessageOf(r), r.n), ReplyData(r);
    SumJoin(h, data);
    PacketIs(MessageOf(r), r.n);
    Regroup([START_CHAR], h, data, CheckChar(Sum(h) + Sum(data)), END_CHAR);
  }

  /** The core of a reply whose characters add up to `sum`. */
  lemma CoreOf(r: Reply, sum: nat)
    requires r.n < MAX_NUMBER && Sum([ToChar(|ReplyData(r)| + 3), ToChar(r.n), ReplyKind(r)]) + Sum(ReplyData(r)) == sum
    ensures ReplyCore(r) ==
            [START_CHAR, ToChar(|ReplyData(r)| + 3), ToChar(r.n), ReplyKind(r)] + ReplyData(r) + [CheckChar(sum)]
  {
    ReplyHead(r);
    ReplyCoreIs(r);
    hide ReplyData, Sum, CheckChar, ToChar, Head, Sendable, ReplyKind, ReplyCore, UpToZero, NoZero;
    SumJoin(Head(MessageOf(r), r.n), ReplyData(r));
    var h := [ToChar(|ReplyData(r)| + 3), ToChar(r.n), ReplyKind(r)];
    assert Head(MessageOf(r), r.n)[..] + ReplyData(r) == h + ReplyData(r);
    SumJoin(h, ReplyData(r));
  }

  /** An acknowledgement, character by character. */
  lemma UsualAck()
    ensures ReplyCore(Ack(0)) == [0x01, 0x23, 0x20, 0x59, 0x3E]
  {
    SumThree(0x23, 0x20, 0x59);
    assert Sum([]) == 0;
    assert ToChar(3) == 0x23 && ToChar(0) == 0x20 && CheckChar(156) == 0x3E;
    hide Sum, ReplyCore, ToChar, CheckChar;
    CoreOf(Ack(0), 156);
  }

  /** And its opposite. */
  lemma UsualNack()
    ensures ReplyCore(Nack(1)) == [0x01, 0x23, 0x21, 0x4E, 0x34]
  {
    SumThree(0x23, 0x21, 0x4E);
    assert Sum([]) == 0;
    assert ToChar(3) == 0x23 && ToChar(1) == 0x21 && CheckChar(146) == 0x34;
    hide Sum, ReplyCore, ToChar, CheckChar;
    CoreOf(Nack(1), 146);
  }

  /** What answers `~* @-#N1`: `~! @-#N1`. */
  lemma UsualAnswer()
    ensures ReplyCore(Parms(0, InitData(USUAL))) ==
            [0x01, 0x2B, 0x20, 0x59, 0x7E, 0x21, 0x20, 0x40, 0x2D, 0x23, 0x4E, 0x31, 0x53]
  {
    UsualInit();
    hide InitData;
    var r := Parms(0, InitData(USUAL));
    var data := ReplyData(r);
    assert data == [0x7E, 0x21, 0x20, 0x40] + [0x2D, 0x23, 0x4E, 0x31];
    SumFour(0x7E, 0x21, 0x20, 0x40);
    SumFour(0x2D, 0x23, 0x4E, 0x31);
    SumJoin([0x7E, 0x21, 0x20, 0x40], [0x2D, 0x23, 0x4E, 0x31]);
    SumThree(0x2B, 0x20, 0x59);
    hide Sum, ReplyCore;
    CoreOf(r, 626);
  }

  /** What goes out for a reply: the characters asked for, the packet, and the end
      of line asked for, unless that is a zero. */
  lemma ReplyLineIs(w: Wishes, r: Reply)
    requires r.n < MAX_NUMBER
    ensures ReplyLine(w, r) == Pads(w) + ReplyCore(r) + if w.eol == 0 then [] else [w.eol]
  {
    ReplyIsPacket(r);
    hide ReplyCore, Pads;
    WholeString(ReplyCore(r), [w.eol]);
    assert w.eol != 0 ==> UpToZero([w.eol]) == [w.eol] by { assert UpToZero([w.eol][1..]) == []; }
  }

  /** Up to its end of line a reply is read as a packet with its number and data;
      the search for its beginning is not misled by what comes before, unless the
      sender has asked for start characters there. */
  lemma ReplyRead(w: Wishes, r: Reply, rest: seq<Byte>, n0: nat)
    requires r.n < MAX_NUMBER
    ensures var line := Pads(w) + ReplyCore(r) + [END_CHAR] + rest;
            Parse(line, w.pads + 1, n0) == Packet(Good, r.n, ReplyKind(r), ReplyData(r), Good,
                                                  w.pads + |ReplyCore(r)| + 1)
            && (Hunt(line, 0) == w.pads + 1 <==> w.pads == 0 || w.pad != START_CHAR)
  {
    hide ReplyCore, PacketBytes, Sendable, Parse, Hunt, ReplyData, ReplyKind;
    ReplyIsPacket(r);
    var packet := PacketBytes(MessageOf(r), r.n);
    var line := Pads(w) + ReplyCore(r) + [END_CHAR] + rest;
    assert line == Pads(w) + packet + rest;
    assert line[w.pads..w.pads + |packet|] == packet;
    ShortRead(line, w.pads, MessageOf(r), r.n, n0);
    assert line[w.pads] == START_CHAR;
    forall i | 0 <= i < w.pads ensures line[i] == w.pad { assert line[i] == Pads(w)[i]; }
    if w.pads > 0 { assert line[0] == w.pad; }
    HuntPast(line, w.pads);
  }

  lemma HuntPast(line: seq<Byte>, k: nat)
    requires k < |line| && line[k] == START_CHAR
    ensures Hunt(line, 0) == k + 1 <==> forall i :: 0 <= i < k ==> line[i] != START_CHAR
  {
  }

  // ------------------------------------------------------ the replies of a run

  /** Every number has come from a character of the line. */
  predicate Numbered(s: State) {
    s.n < MAX_NUMBER && forall i :: 0 <= i < |s.replies| ==> s.replies[i].n < MAX_NUMBER
  }

  lemma TurnNumbered(s: State, input: seq<Byte>, pos: nat)
    requires Numbered(s)
    ensures Numbered(Turn(s, Parse(input, pos, s.n)))
  {
    hide Tail, Feed, Asked, QuoteOf;
    ParseNumbered(input, pos, s.n);
  }

  lemma ParseNumbered(input: seq<Byte>, pos: nat, n0: nat)
    requires n0 < MAX_NUMBER
    ensures Parse(input, pos, n0).seqno < MAX_NUMBER
  {
    hide Body, LongHeader;
  }

  lemma {:induction false} RunNumbered(s: State, input: seq<Byte>, pos: nat)
    requires Numbered(s)
    ensures Numbered(Run(s, input, pos))
    decreases |input| - pos
  {
    hide Turn, Parse;
    var start := Hunt(input, pos);
    if start != -1 {
      var p := Parse(input, start, s.n);
      ParseMoves(input, start, s.n);
      TurnNumbered(s, input, start);
      if !(p.status == Starved || (p.status == Good && p.kind == BREAK_TYPE)) { RunNumbered(Turn(s, p), input, p.at); }
    }
  }

  /** The line of reply `k` in what has been sent. */
  lemma {:induction false} LineOfReply(replies: seq<Reply>, k: nat)
    requires k < |replies|
    ensures var before := Lines(replies[..k]);
            before + ReplyLine(InForce(replies[..k + 1]), replies[k]) <= Lines(replies)
    decreases |replies|
  {
    hide ReplyLine, InForce;
    var n := |replies| - 1;
    if k < n {
      LineOfReply(replies[..n], k);
      assert replies[..n][..k] == replies[..k] && replies[..n][..k + 1] == replies[..k + 1];
    } else {
      assert replies[..k + 1] == replies;
    }
  }

  /** Whatever the line has delivered, each reply of the run is on the line after
      those before it, as the sender asked for it last, and can be read. */
  lemma AnswersReadable(start: int, mem: Memory, input: seq<Byte>, k: nat, rest: seq<Byte>, n0: nat)
    requires k < |Run(Initial(start, mem), input, 0).replies|
    ensures var replies := Run(Initial(start, mem), input, 0).replies;
            var w, r := InForce(replies[..k + 1]), replies[k];
            var packet := Pads(w) + ReplyCore(r);
            Lines(replies[..k]) + packet + (if w.eol == 0 then [] else [w.eol]) <= Lines(replies)
            && Parse(packet + [END_CHAR] + rest, w.pads + 1, n0) == Packet(Good, r.n, ReplyKind(r), ReplyData(r), Good,
                                                                           |packet| + 1)
            && (w.pads == 0 || w.pad != START_CHAR ==> Hunt(packet + [END_CHAR] + rest, 0) == w.pads + 1)
  {
    hide Run, Lines, ReplyLine, ReplyCore, Parse, Hunt, InForce, Pads;
    var replies := Run(Initial(start, mem), input, 0).replies;
    var w, r := InForce(replies[..k + 1]), replies[k];
    RunNumbered(Initial(start, mem), input, 0);
    LineOfReply(replies, k);
    ReplyLineIs(w, r);
    ReplyRead(w, r, rest, n0);
    PadsAre(w);
    var end := if w.eol == 0 then [] else [w.eol];
    assert Lines(replies[..k]) + (Pads(w) + ReplyCore(r)) + end == Lines(replies[..k]) + (Pads(w) + ReplyCore(r) + end);
  }

  lemma PadsAre(w: Wishes)
    ensures |Pads(w)| == w.pads
  {
  }
}
