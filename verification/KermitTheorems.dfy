// What the receiver promises the sender: every data packet arrives once, in
// order and unquoted, however often it is sent again.
module KermitTheorems {
  import opened Kermit

  // ---------------------------------------------------------------- quoting

  /** The bytes that quoted text stands for, and whether a quote is left open. */
  function Text(quote: Byte, escape: bool, chars: seq<Byte>): (seq<Byte>, bool) {
    if |chars| == 0 then ([], escape)
    else
      var (out, esc) := Text(quote, escape, chars[..|chars| - 1]);
      var c := chars[|chars| - 1];
      if esc then (out + [Ktrans(c)], false) else if c == quote then (out, true) else (out + [c], false)
  }

  lemma {:induction false} TextAppend(quote: Byte, escape: bool, a: seq<Byte>, b: seq<Byte>)
    ensures var (out, esc) := Text(quote, escape, a);
            var (out', esc') := Text(quote, esc, b);
            Text(quote, escape, a + b) == (out + out', esc')
  {
    if |b| == 0 {
      assert a + b == a && Text(quote, escape, a).0 + [] == Text(quote, escape, a).0;
    } else {
      assert (a + b)[..|a + b| - 1] == a + b[..|b| - 1];
      TextAppend(quote, escape, a, b[..|b| - 1]);
      var (out, esc) := Text(quote, escape, a);
      var (out', esc') := Text(quote, esc, b[..|b| - 1]);
      var c := b[|b| - 1];
      assert (a + b)[|a + b| - 1] == c;
      assert (out + out') + [c] == out + (out' + [c]) && (out + out') + [Ktrans(c)] == out + (out' + [Ktrans(c)]);
    }
  }

  predicate HoldsAt(mem: Memory, start: int, content: seq<Byte>, i: int)
    requires 0 <= i < |content|
  {
    start + i in mem && mem[start + i] == content[i]
  }

  /** The bytes from `start` on are `content`. */
  ghost predicate Holds(mem: Memory, start: int, content: seq<Byte>) {
    forall i {:trigger HoldsAt(mem, start, content, i)} :: 0 <= i < |content| ==> HoldsAt(mem, start, content, i)
  }

  lemma HoldsMore(mem: Memory, start: int, a: seq<Byte>, x: Byte)
    requires Holds(mem, start, a)
    ensures Holds(mem[start + |a| := x], start, a + [x])
  {
    var mem', b := mem[start + |a| := x], a + [x];
    forall i | 0 <= i < |b| ensures HoldsAt(mem', start, b, i) {
      if i < |a| { assert HoldsAt(mem, start, a, i); }
    }
  }

  /** Feeding characters writes the text they stand for and nothing before it. */
  lemma {:induction false} FeedIs(w: Place, quote: Byte, chars: seq<Byte>, start: int, content: seq<Byte>)
    requires Holds(w.mem, start, content) && w.point.addr == start + |content|
    ensures var (out, esc) := Text(quote, w.point.escape, chars);
            var v := Feed(w, quote, chars);
            v.point == Point(esc, w.point.addr + |out|) && Holds(v.mem, start, content + out)
  {
    if |chars| > 0 {
      var c, chars' := chars[|chars| - 1], chars[..|chars| - 1];
      FeedIs(w, quote, chars', start, content);
      var (out, esc) := Text(quote, w.point.escape, chars');
      var v := Feed(w, quote, chars');
      HoldsMore(v.mem, start, content + out, c);
      HoldsMore(v.mem, start, content + out, Ktrans(c));
      assert (content + out) + [c] == content + (out + [c]);
      assert (content + out) + [Ktrans(c)] == content + (out + [Ktrans(c)]);
    } else {
      assert content + [] == content;
    }
  }

  /** Legal encodings of a byte string: a byte as it is, or quoted by a
      character that translates to it. */
  ghost predicate Encodes(quote: Byte, bytes: seq<Byte>, chars: seq<Byte>)
    decreases |chars|
  {
    if |bytes| == 0 then chars == []
    else
      var b, rest := bytes[|bytes| - 1], bytes[..|bytes| - 1];
      (|chars| >= 1 && chars[|chars| - 1] == b && b != quote && Encodes(quote, rest, chars[..|chars| - 1]))
      || (|chars| >= 2 && chars[|chars| - 2] == quote && Ktrans(chars[|chars| - 1]) == b
        && Encodes(quote, rest, chars[..|chars| - 2]))
  }

  /** Every legal encoding decodes to the bytes, however it is split between
      packets. */
  lemma {:induction false} QuotingRoundTrip(quote: Byte, bytes: seq<Byte>, chars: seq<Byte>)
    requires Encodes(quote, bytes, chars)
    ensures Text(quote, false, chars) == (bytes, false)
    decreases |chars|
  {
    if |bytes| > 0 {
      var b, rest := bytes[|bytes| - 1], bytes[..|bytes| - 1];
      assert rest + [b] == bytes;
      if |chars| >= 1 && chars[|chars| - 1] == b && b != quote && Encodes(quote, rest, chars[..|chars| - 1]) {
        QuotingRoundTrip(quote, rest, chars[..|chars| - 1]);
      } else {
        QuotingRoundTrip(quote, rest, chars[..|chars| - 2]);
        assert chars[..|chars| - 1][..|chars| - 2] == chars[..|chars| - 2];
      }
    }
  }

  /** The character that quotes a byte, for bytes that have one. */
  function Quoted(b: Byte): Byte {
    if b / 32 % 4 == 0 then b + 64 else if b % 128 == 127 then b - 64 else b
  }

  /** Which bytes can be quoted: all but those from 64 to 95, with or without
      the top bit, and the two question marks. */
  lemma Quotable(b: Byte)
    ensures (exists c: Byte :: Ktrans(c) == b) <==> b / 32 % 4 != 2 && b % 128 != 63
    ensures b / 32 % 4 != 2 && b % 128 != 63 ==> Ktrans(Quoted(b)) == b && !Control(Quoted(b))
  {
    if b / 32 % 4 != 2 && b % 128 != 63 {
      assert Ktrans(Quoted(b)) == b;
    } else {
      forall c: Byte ensures Ktrans(c) != b { }
    }
  }

  /** A byte that may not be sent as it is can always be quoted: the control
      characters, and the quote character if that is not one of the bytes that
      have no quoted form. */
  function Encode(quote: Byte, bytes: seq<Byte>): seq<Byte> {
    if |bytes| == 0 then []
    else
      var b := bytes[|bytes| - 1];
      Encode(quote, bytes[..|bytes| - 1]) + if Control(b) || b == quote then [quote, Quoted(b)] else [b]
  }

  lemma {:induction false} EncodeLegal(quote: Byte, bytes: seq<Byte>)
    requires !Control(quote) && quote / 32 % 4 != 2 && quote % 128 != 63
    ensures Encodes(quote, bytes, Encode(quote, bytes)) && forall i :: 0 <= i < |Encode(quote, bytes)| ==>
              !Control(Encode(quote, bytes)[i])
  {
    if |bytes| > 0 {
      var b, rest := bytes[|bytes| - 1], bytes[..|bytes| - 1];
      EncodeLegal(quote, rest);
      QuotedWell(quote, b);
      hide Ktrans, Quoted, Control;
      var e := Encode(quote, rest);
      assert (e + [quote, Quoted(b)])[..|e|] == e && (e + [b])[..|e|] == e;
    }
  }

  lemma QuotedWell(quote: Byte, b: Byte)
    requires !Control(quote) && quote / 32 % 4 != 2 && quote % 128 != 63
    ensures Control(b) || b == quote ==> Ktrans(Quoted(b)) == b && !Control(Quoted(b))
  {
    Quotable(b);
  }

  // --------------------------------------------------------- exactly once

  /** What the sender has to say: packets in order, numbered modulo 64. */
  datatype Message = Message(kind: Byte, data: seq<Byte>)

  /** The quote character, the open quote and the text after the first `k`. */
  datatype Progress = Progress(quote: Byte, escape: bool, out: seq<Byte>)

  function After(msgs: seq<Message>, k: nat): Progress
    requires k <= |msgs|
  {
    if k == 0 then Progress(K_ESCAPE, false, [])
    else
      var p, m := After(msgs, k - 1), msgs[k - 1];
      if m.kind == DATA_TYPE then
        var (out, esc) := Text(p.quote, p.escape, m.data);
        Progress(p.quote, esc, p.out + out)
      else if m.kind == SEND_TYPE then Progress(QuoteOf(m.data), p.escape, p.out)
      else p
  }

  /** The text of the data packets alone, when no packet changes the quote. */
  function Payload(msgs: seq<Message>, k: nat): seq<Byte>
    requires k <= |msgs|
  {
    if k == 0 then [] else Payload(msgs, k - 1) + if msgs[k - 1].kind == DATA_TYPE then msgs[k - 1].data else []
  }

  function PointOf(start: int, p: Progress): Point {
    Point(p.escape, start + |p.out|)
  }

  /** The receiver while packet `k` is being sent; `done` tells whether it has
      been accepted. */
  ghost predicate Tracks(s: State, start: int, msgs: seq<Message>, k: nat, done: bool) {
    k < |msgs|
    && var now := After(msgs, if done then k + 1 else k);
       (s.quote == now.quote || (msgs[k].kind == SEND_TYPE && s.quote == After(msgs, k + 1).quote))
       && s.place.point == PointOf(start, now) && Holds(s.place.mem, start, now.out)
       && (s.lastN == k % 64 ==> s.saved == PointOf(start, After(msgs, k)))
       && (s.lastN != k % 64 ==> !done)
  }

  /** An attempt at packet `k`: its length and sequence characters arrive, and if
      it passes all the checks it is what was sent. */
  predicate Attempt(p: Packet, msgs: seq<Message>, k: nat) {
    k < |msgs| && p.header == Good && p.seqno == k % 64 && p.status != Starved
    && (p.status == Good ==> p.kind == msgs[k].kind && p.data == msgs[k].data)
  }

  lemma PrefixHolds(mem: Memory, start: int, a: seq<Byte>, b: seq<Byte>)
    requires Holds(mem, start, a + b)
    ensures Holds(mem, start, a)
  {
    forall i | 0 <= i < |a| ensures HoldsAt(mem, start, a, i) { assert HoldsAt(mem, start, a + b, i); }
  }

  /** Before packet `k` is processed, the state is that of all packets before it. */
  lemma Checkpointed(s: State, start: int, msgs: seq<Message>, k: nat, done: bool)
    requires Tracks(s, start, msgs, k, done)
    ensures var t, p := Checkpoint(s, k % 64), After(msgs, k);
            t.place.point == t.saved == PointOf(start, p) && t.lastN == t.n == k % 64
            && Holds(t.place.mem, start, p.out)
            && t.quote == s.quote && (msgs[k].kind == DATA_TYPE ==> t.quote == p.quote)
  {
    if done {
      var p, q := After(msgs, k), After(msgs, k + 1);
      assert q.out == p.out + q.out[|p.out|..];
      PrefixHolds(s.place.mem, start, p.out, q.out[|p.out|..]);
    }
  }

  /** Whatever arrives of the packet, the receiver stays in step; only complete
      packets count. */
  lemma AttemptTracks(s: State, start: int, msgs: seq<Message>, k: nat, done: bool, p: Packet)
    requires Tracks(s, start, msgs, k, done) && Attempt(p, msgs, k)
    ensures Tracks(Turn(s, p), start, msgs, k, p.status == Good)
  {
    Checkpointed(s, start, msgs, k, done);
    var t, before := Checkpoint(s, k % 64), After(msgs, k);
    FeedIs(t.place, t.quote, p.data, start, before.out);
    var (out, esc) := Text(t.quote, before.escape, p.data);
    if p.kind == DATA_TYPE { PrefixHolds(Feed(t.place, t.quote, p.data).mem, start, before.out, out); }
    assert k % 64 == Turn(s, p).lastN;
  }

  /** Once a packet has been accepted, the sender may go on to the next. */
  lemma NextTracks(s: State, start: int, msgs: seq<Message>, k: nat)
    requires Tracks(s, start, msgs, k, true) && k + 1 < |msgs|
    ensures Tracks(s, start, msgs, k + 1, false)
  {
  }

  lemma StartTracks(start: int, mem: Memory, msgs: seq<Message>)
    requires |msgs| > 0
    ensures Tracks(Initial(start, mem), start, msgs, 0, false)
  {
  }

  /** The line carries a stop-and-wait dialogue: every packet the receiver finds
      on it is an attempt at the current message or, once that has been accepted,
      at the next one.  Anything may lie between the packets.  A dialogue is
      `complete` when it ends with the acceptance of the last message. */
  ghost predicate Dialogue(s: State, input: seq<Byte>, pos: nat, msgs: seq<Message>, k: nat, done: bool, complete: bool)
    decreases |input| - pos
  {
    var from := Hunt(input, pos);
    if from == -1 then !complete
    else
      var p := Parse(input, from, s.n);
      ParseMoves(input, from, s.n);
      Continues(s, input, p, msgs, k, done, complete, pos)
      || (done && Continues(s, input, p, msgs, k + 1, done, complete, pos))
  }

  ghost predicate Continues(s: State, input: seq<Byte>, p: Packet, msgs: seq<Message>, k: nat, done: bool,
                            complete: bool, pos: nat)
    requires pos < p.at <= |input|
    decreases |input| - pos, 0
  {
    Attempt(p, msgs, k)
    && if p.status == Good && p.kind == BREAK_TYPE then complete ==> k + 1 == |msgs|
       else Dialogue(Turn(s, p), input, p.at, msgs, k, p.status == Good, complete)
  }

  /** In every dialogue, whatever is lost, damaged or sent again: after the last
      packet on the line the memory holds the text of all messages accepted so
      far, each once and in order, and the checkpoint is that of all messages
      before the current one. */
  lemma {:induction false} ExactlyOnce(s: State, input: seq<Byte>, pos: nat, start: int, msgs: seq<Message>, k: nat,
                                       done: bool, complete: bool)
      returns (k': nat, done': bool)
    requires Tracks(s, start, msgs, k, done) && Dialogue(s, input, pos, msgs, k, done, complete)
    ensures k <= k' && Tracks(Run(s, input, pos), start, msgs, k', done')
    ensures complete ==> done' && k' + 1 == |msgs|
    decreases |input| - pos
  {
    hide Tracks, Turn, Attempt;
    var from := Hunt(input, pos);
    if from == -1 {
      k', done' := k, done;
    } else {
      var p := Parse(input, from, s.n);
      ParseMoves(input, from, s.n);
      if Continues(s, input, p, msgs, k, done, complete, pos) {
        AttemptTracks(s, start, msgs, k, done, p);
        k' := k;
      } else {
        InRange(p, msgs, k + 1);
        NextTracks(s, start, msgs, k);
        AttemptTracks(s, start, msgs, k + 1, false, p);
        k' := k + 1;
      }
      done' := p.status == Good;
      NotStarved(p, msgs, k');
      if !(p.status == Good && p.kind == BREAK_TYPE) {
        k', done' := ExactlyOnce(Turn(s, p), input, p.at, start, msgs, k', done', complete);
      }
    }
  }

  lemma InRange(p: Packet, msgs: seq<Message>, k: nat)
    requires Attempt(p, msgs, k)
    ensures k < |msgs|
  {
  }

  lemma NotStarved(p: Packet, msgs: seq<Message>, k: nat)
    requires Attempt(p, msgs, k)
    ensures p.status != Starved
  {
  }

  /** All send-initiate packets ask for quote `q`, and the first packet is one
      unless `q` is the default. */
  predicate Settled(msgs: seq<Message>, q: Byte) {
    |msgs| > 0 && (q == K_ESCAPE || msgs[0].kind == SEND_TYPE)
    && forall i :: 0 <= i < |msgs| && msgs[i].kind == SEND_TYPE ==> QuoteOf(msgs[i].data) == q
  }

  /** The text received is that of the data packets put together: the escape
      flag carries over from one packet to the next. */
  lemma {:induction false} TextOfPayload(msgs: seq<Message>, q: Byte, k: nat)
    requires Settled(msgs, q) && 1 <= k <= |msgs|
    ensures var (out, esc) := Text(q, false, Payload(msgs, k)); After(msgs, k) == Progress(q, esc, out)
  {
    var m := msgs[k - 1];
    if k == 1 {
      assert After(msgs, 0) == Progress(K_ESCAPE, false, []) && Payload(msgs, 0) == [];
      assert [] + m.data == m.data;
      var (out, esc) := Text(q, false, m.data);
      assert [] + out == out;
    } else {
      TextOfPayload(msgs, q, k - 1);
      TextAppend(q, false, Payload(msgs, k - 1), if m.kind == DATA_TYPE then m.data else []);
      assert Payload(msgs, k - 1) + [] == Payload(msgs, k - 1);
    }
  }

  /** A file sent with any legal quoting, cut into data packets anywhere, is in
      memory when the dialogue is complete. */
  lemma FileArrives(input: seq<Byte>, start: int, mem: Memory, msgs: seq<Message>, q: Byte, file: seq<Byte>)
    requires Settled(msgs, q) && Encodes(q, file, Payload(msgs, |msgs|))
    requires Dialogue(Initial(start, mem), input, 0, msgs, 0, false, true)
    ensures var r := Run(Initial(start, mem), input, 0);
            Holds(r.place.mem, start, file) && r.place.point == Point(false, start + |file|)
  {
    StartTracks(start, mem, msgs);
    var k, done := ExactlyOnce(Initial(start, mem), input, 0, start, msgs, 0, false, true);
    TextOfPayload(msgs, q, |msgs|);
    QuotingRoundTrip(q, file, Payload(msgs, |msgs|));
  }

  // ---------------------------------------------- where the promise ends

  /** A damaged length or sequence character rolls back to the checkpoint.  A
      message that was accepted before survives that exactly when it left the
      address and the escape flag as they were. */
  lemma HeaderDamage(s: State, start: int, msgs: seq<Message>, k: nat, p: Packet)
    requires Tracks(s, start, msgs, k, true) && p.header == Bad
    ensures Turn(s, p).place == Place(s.saved, s.place.mem)
    ensures Tracks(Turn(s, p), start, msgs, k, true) <==>
              PointOf(start, After(msgs, k)) == PointOf(start, After(msgs, k + 1))
  {
    if PointOf(start, After(msgs, k)) == PointOf(start, After(msgs, k + 1)) {
      assert s.place.point == s.saved;
    }
  }

  /** An accepted message is rolled back, too, when it is sent again and damaged.
      If the sender goes on nevertheless, because the first acknowledgement was
      only late, the receiver stays in step exactly when that message left the
      address and the escape flag as they were; otherwise its text is missing. */
  lemma LateAcknowledgement(s: State, start: int, msgs: seq<Message>, k: nat, damaged: Packet, next: Packet)
    requires Tracks(s, start, msgs, k, true) && k + 1 < |msgs|
    requires Attempt(damaged, msgs, k) && damaged.status == Bad && Attempt(next, msgs, k + 1) && next.status == Good
    ensures Tracks(Turn(Turn(s, damaged), next), start, msgs, k + 1, true) <==>
              PointOf(start, After(msgs, k)) == PointOf(start, After(msgs, k + 1))
    ensures msgs[k].kind != SEND_TYPE && msgs[k + 1].kind == DATA_TYPE ==>
              var t := Turn(Turn(s, damaged), next);
              var (out, esc) := Text(s.quote, After(msgs, k).escape, msgs[k + 1].data);
              Holds(t.place.mem, start, After(msgs, k).out + out)
              && t.place.point.addr == start + |After(msgs, k).out| + |out|
  {
    AttemptTracks(s, start, msgs, k, true, damaged);
    var t := Turn(s, damaged);
    var before := After(msgs, k);
    FeedIs(t.place, t.quote, next.data, start, before.out);
    assert Turn(t, next).saved == t.place.point == PointOf(start, before);
    if PointOf(start, before) == PointOf(start, After(msgs, k + 1)) {
      StillTracks(s, start, msgs, k, damaged);
      NextTracks(t, start, msgs, k);
      AttemptTracks(t, start, msgs, k + 1, false, next);
    }
  }

  /** A message that left no trace is not missed. */
  lemma StillTracks(s: State, start: int, msgs: seq<Message>, k: nat, damaged: Packet)
    requires Tracks(s, start, msgs, k, true) && Attempt(damaged, msgs, k) && damaged.status == Bad
    requires PointOf(start, After(msgs, k)) == PointOf(start, After(msgs, k + 1))
    ensures Tracks(Turn(s, damaged), start, msgs, k, true)
  {
    AttemptTracks(s, start, msgs, k, true, damaged);
    var p, q := After(msgs, k), After(msgs, k + 1);
    assert q.out == p.out + q.out[|p.out|..];
    assert p.out == q.out;
  }

  lemma CheckValid(sum: nat)
    ensures !Control(CheckChar(sum))
  {
  }

  lemma SumThree(a: Byte, b: Byte, c: Byte)
    ensures Sum([a, b, c]) == a as nat + b as nat + c as nat
  {
    assert [a, b, c][..2] == [a, b] && [a, b][..1] == [a] && [a][..0] == [];
    assert Sum([a]) == a && Sum([a, b]) == Sum([a]) + b;
  }
}
