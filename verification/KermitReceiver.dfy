// k_recv and the routines under it, as they run.
module KermitReceiver {
  import opened Kermit

  class Receiver {
    const input: seq<Byte>        // what the line will deliver
    var pos: nat
    var mem: Memory               // the board's memory
    var escape: bool              // k_data_escape
    var escapeSaved: bool
    var addr: int                 // os_data_addr
    var addrSaved: int
    var quote: Byte               // his_quote
    var lastN: int
    var n: nat
    var replies: seq<Reply>
    var sent: seq<Byte>           // what has gone out on the line
    var eol: Byte                 // his_eol
    var padCount: nat             // his_pad_count
    var padChar: Byte             // his_pad_char
    const sendParms: array<Byte>
    var sendPtr: nat

    ghost predicate Valid()
      reads this
    {
      pos <= |input| && sendParms.Length == SEND_DATA_SIZE && sendPtr < SEND_DATA_SIZE
      && Told(Wishes(padCount, padChar, eol), sent, replies)
    }

    ghost function Now(): State
      reads this
    {
      State(Place(Point(escape, addr), mem), Point(escapeSaved, addrSaved), lastN, n, quote, replies)
    }

    /** set_kerm_bin_mode and the initializations at the head of k_recv */
    constructor (input: seq<Byte>, start: int, mem: Memory)
      ensures Valid() && this.input == input && pos == 0 && Now() == Initial(start, mem) && fresh(sendParms)
    {
      this.input, pos, this.mem := input, 0, mem;
      escape, escapeSaved, addr, addrSaved := false, false, start, start;
      quote, lastN, n, replies := K_ESCAPE, -1, 0, [];
      sent, eol, padCount, padChar := [], END_CHAR, 0, 0;
      sendParms, sendPtr := new Byte[SEND_DATA_SIZE](_ => 0), 0;
    }

    /** serial_getc, and the test for a control character */
    method Get() returns (c: Byte, status: Status)
      requires Valid()
      modifies this`pos
      ensures Valid() && status == CharStatus(input, old(pos)) && pos == After(input, old(pos))
      ensures old(pos) < |input| ==> c == input[old(pos)]
    {
      c := 0;
      if pos >= |input| { return c, Starved; }
      c := input[pos];
      pos := pos + 1;
      status := if c / 32 == 0 then Bad else Good;
    }

    /** k_data_char, over bin_data_char */
    method KDataChar(c: Byte)
      modifies this`mem, this`escape, this`addr
      ensures Now() == old(Now()).(place := CharStep(old(Now()).place, quote, c))
    {
      if escape {
        mem, addr := mem[addr := Ktrans(c)], addr + 1;
        escape := false;
      } else if c == quote {
        escape := true;
      } else {
        mem, addr := mem[addr := c], addr + 1;
      }
    }

    method KDataSave()
      modifies this`escapeSaved, this`addrSaved
      ensures Now() == old(Now()).(saved := old(Now()).place.point)
    {
      escapeSaved, addrSaved := escape, addr;
    }

    method KDataRestore()
      modifies this`escape, this`addr
      ensures Now() == old(Now()).(place := Place(old(Now()).saved, mem))
    {
      escape, addr := escapeSaved, addrSaved;
    }

    /** The characters stored by a send-initiate packet so far. */
    ghost predicate Buffered(data: seq<Byte>)
      reads this, sendParms
    {
      Valid() && sendPtr == (if |data| < SEND_DATA_SIZE then |data| else SEND_DATA_SIZE - 1)
      && forall i :: 0 <= i < |data| && i < SEND_DATA_SIZE - 1 ==> sendParms[i] == data[i]
    }

    method SaveParm(c: Byte, ghost data: seq<Byte>)
      requires Buffered(data)
      modifies this`sendPtr, sendParms
      ensures Buffered(data + [c])
    {
      sendParms[sendPtr] := c;
      sendPtr := sendPtr + 1;
      if sendPtr >= SEND_DATA_SIZE { sendPtr := sendPtr - 1; }
    }

    /** One character goes to memory, or to the buffer, or is only counted. */
    method PassOn(kind: Byte, c: Byte, ghost data: seq<Byte>, ghost s: State)
      requires Valid() && (kind == SEND_TYPE ==> Buffered(data)) && Now() == Deliver(s, kind, data)
      modifies this`mem, this`escape, this`addr, this`sendPtr, sendParms
      ensures Valid() && Now() == Deliver(s, kind, data + [c])
      ensures if kind == SEND_TYPE then Buffered(data + [c]) else sendPtr == old(sendPtr)
    {
      hide Feed, CharStep, Deliver, Told;
      DeliverAppend(s, kind, data, c);
      if kind == DATA_TYPE {
        KDataChar(c);
      } else if kind == SEND_TYPE {
        SaveParm(c, data);
      }
    }

    /** The rest of the packet, passed on as it comes. */
    method GetData(kind: Byte, length0: int, sum0: nat) returns (status: Status, sum: nat, ghost data: seq<Byte>)
      requires Buffered([])
      modifies this, sendParms
      ensures Valid()
      ensures var count := if length0 > 1 then length0 - 1 else 0;
              var k := ValidChars(input, old(pos), count);
              data == (if k > 0 then input[old(pos)..old(pos) + k] else [])
              && (if k < count then status == CharStatus(input, old(pos) + k) && pos == After(input, old(pos) + k)
                  else status == Good && pos == old(pos) + k)
      ensures sum == sum0 + Sum(data) && (kind == SEND_TYPE ==> Buffered(data))
      ensures Now() == Deliver(old(Now()), kind, data)
    {
      hide Feed, Sum, CharStep, Deliver, Told, Ktrans, ToChar, UnChar;
      var length := length0;
      status, sum, data := Good, sum0, [];
      DeliverNothing(Now(), kind);
      while length > 1
        invariant length <= length0 && Valid() && status == Good
        invariant length0 > 1 ==> 1 <= length && old(pos) + length0 - length == pos
        invariant length0 <= 1 ==> length == length0 && pos == old(pos)
        invariant data == input[old(pos)..pos] && sum == sum0 + Sum(data)
        invariant kind == SEND_TYPE ==> Buffered(data)
        invariant kind != SEND_TYPE ==> sendPtr == 0
        invariant Now() == Deliver(old(Now()), kind, data)
        invariant length0 > 1 ==>
                    ValidChars(input, old(pos), length0 - 1) == (pos - old(pos)) + ValidChars(input, pos, length - 1)
        decreases length
      {
        var c;
        ghost var from := pos;
        c, status := Get();
        if status != Good { return; }
        sum := sum + c;
        length := length - 1;
        assert input[old(pos)..pos] == data + [c];
        SumAppend(data, c);
        PassOn(kind, c, data, old(Now()));
        data := data + [c];
      }
    }

    /** The check character and the end of the packet. */
    method GetEnding(sum: nat) returns (status: Status)
      requires Valid()
      modifies this`pos
      ensures Valid() && (status, pos) == Ending(input, old(pos), sum)
    {
      var c;
      c, status := Get();
      if status != Good { return; }
      if c != ToChar((sum + sum / 64 % 4) % 64) { return Bad; }
      if pos >= |input| { return Starved; }
      c := input[pos];
      pos := pos + 1;
      status := if c != END_CHAR then Bad else Good;
    }

    /** The two characters of a long packet's length, and their check. */
    method GetLength(sum0: nat) returns (status: Status, length: int, sum: nat)
      requires Valid()
      modifies this`pos
      ensures Valid() && (status, pos, length, sum) == LongHeader(input, old(pos), sum0)
    {
      var hi, lo, c;
      length, sum := 0, sum0;
      hi, status := Get();
      if status != Good { return; }
      lo, status := Get();
      if status != Good { return; }
      c, status := Get();
      if status != Good { return; }
      if c != ToChar((sum0 + hi + lo + (sum0 + hi + lo) / 64 % 4) % 64) { return Bad, 0, sum0; }
      length, sum := UnChar(hi) * 95 + UnChar(lo), sum0 + hi + lo + c;
    }

    /** The data and the end of the packet. */
    method GetBody(kind: Byte, length: int, sum0: nat) returns (status: Status, ghost data: seq<Byte>)
      requires Buffered([])
      modifies this, sendParms
      ensures Valid() && (data, status, pos) == Body(input, old(pos), length, sum0)
      ensures Now() == Deliver(old(Now()), kind, data) && (kind == SEND_TYPE ==> Buffered(data))
    {
      hide Deliver, ValidChars, Sum, CharStatus, Ending;
      var sum;
      status, sum, data := GetData(kind, length, sum0);
      if status == Good {
        status := GetEnding(sum);
      }
    }

    /** send_pad */
    method SendPad()
      modifies this`sent
      ensures sent == old(sent) + Pads(Wishes(padCount, padChar, eol))
    {
      var count := padCount;
      ghost var w := Wishes(padCount, padChar, eol);
      while count > 0
        invariant 0 <= count <= padCount && sent == old(sent) + Pads(w)[..padCount - count]
      {
        sent := sent + [padChar];
        count := count - 1;
      }
      assert Pads(w)[..padCount] == Pads(w);
    }

    /** chk1, as a character */
    static method Chk1(buffer: seq<Byte>) returns (r: Byte)
      ensures r == CheckChar(Sum(UpToZero(buffer)))
    {
      var total: nat, i := 0, 0;
      assert buffer[0..] == buffer;
      while i < |buffer| && buffer[i] != 0
        invariant i <= |buffer| && UpToZero(buffer) == buffer[..i] + UpToZero(buffer[i..])
        invariant total == Sum(buffer[..i])
      {
        assert buffer[i..][1..] == buffer[i + 1..];
        assert buffer[..i + 1] == buffer[..i] + [buffer[i]];
        SumAppend(buffer[..i], buffer[i]);
        total := total + buffer[i];
        i := i + 1;
      }
      assert UpToZero(buffer) == buffer[..i];
      r := ToChar((total + total / 64 % 4) % 64);
    }

    /** s1_sendpacket */
    method SendString(packet: seq<Byte>)
      modifies this`sent
      ensures sent == old(sent) + Pads(Wishes(padCount, padChar, eol)) + UpToZero(packet)
    {
      SendPad();
      var i := 0;
      ghost var before := sent;
      assert packet[0..] == packet;
      while i < |packet| && packet[i] != 0
        invariant i <= |packet| && UpToZero(packet) == packet[..i] + UpToZero(packet[i..])
        invariant sent == before + packet[..i]
      {
        assert packet[i..][1..] == packet[i + 1..];
        assert packet[..i + 1] == packet[..i] + [packet[i]];
        sent := sent + [packet[i]];
        i := i + 1;
      }
      assert UpToZero(packet) == packet[..i];
    }

    /** The packet of a reply: the end of send_ack, send_nack and
        handle_send_packet. */
    method SendReply(kind: Byte, data: seq<Byte>, ghost r: Reply)
      requires kind == ReplyKind(r) && data == ReplyData(r) && r.n == n
      modifies this`sent
      ensures sent == old(sent) + ReplyLine(Wishes(padCount, padChar, eol), r)
    {
      hide CheckChar, UpToZero, Sum, Pads, ToChar;
      var head := [ToChar(|data| + 3), ToChar(n), kind] + data;
      var check := Chk1(head);
      var packet := [START_CHAR] + head + [check];
      assert packet == ReplyCore(r);
      SendString(packet + [eol]);
      assert old(sent) + ReplyLine(Wishes(padCount, padChar, eol), r)
          == old(sent) + Pads(Wishes(padCount, padChar, eol)) + UpToZero(packet + [eol]);
    }

    /** send_nack */
    method SendNack()
      requires Valid()
      modifies this`replies, this`sent
      ensures Valid() && Now() == old(Now()).(replies := old(replies) + [Nack(n)])
    {
      hide ReplyLine, Lines, InForce;
      ToldMore(Wishes(padCount, padChar, eol), sent, replies, Nack(n));
      SendReply(NACK_TYPE, [], Nack(n));
      replies := replies + [Nack(n)];
    }

    /** packet_error */
    method PacketError()
      requires Valid()
      modifies this`escape, this`addr, this`replies, this`sent
      ensures Valid() && Now() == Restore(old(Now()))
    {
      hide Told;
      KDataRestore();
      SendNack();
    }

    /** send_ack */
    method SendAck()
      requires Valid()
      modifies this`replies, this`sent
      ensures Valid() && Now() == old(Now()).(replies := old(replies) + [Ack(n)])
    {
      hide ReplyLine, Lines, InForce;
      ToldMore(Wishes(padCount, padChar, eol), sent, replies, Ack(n));
      SendReply(ACK_TYPE, [], Ack(n));
      replies := replies + [Ack(n)];
    }

    /** handle_send_packet: what the sender says it needs is remembered, and each
        of its parameters is answered. */
    method HandleSendPacket(ghost data: seq<Byte>)
      requires Buffered(data)
      modifies this`quote, this`sendPtr, this`eol, this`padCount, this`padChar, this`replies, this`sent
      ensures Valid() && Now() == old(Now()).(quote := QuoteOf(data), replies := old(replies) + [Parms(n, Asked(data))])
    {
      hide ReplyLine, Lines, InForce, Ktrans, ToChar, UnChar, Told, AnswerTo;
      ghost var replies0, sent0 := replies, sent;
      ghost var w0 := Wishes(padCount, padChar, eol);
      if sendPtr == SEND_DATA_SIZE - 1 { sendPtr := sendPtr - 1; }
      var bytes := sendPtr;
      var asked := sendParms[..bytes];
      assert asked == Asked(data);
      SetParms(bytes);
      var answer := OwnParms(bytes);
      var r := Parms(n, asked);
      assert answer == ReplyData(r);
      assert Wishes(padCount, padChar, eol) == WishesOf(asked);
      ToldAnew(w0, sent0, replies0, r);
      SendReply(ACK_TYPE, answer, r);
      replies := replies + [r];
    }

    /** What the first `bytes` parameters of the sender say. */
    method SetParms(bytes: nat)
      requires bytes <= sendParms.Length == SEND_DATA_SIZE
      modifies this`quote, this`eol, this`padCount, this`padChar
      ensures Wishes(padCount, padChar, eol) == WishesOf(sendParms[..bytes]) && quote == QuoteOf(sendParms[..bytes])
    {
      eol, padCount, padChar, quote := END_CHAR, 0, 0, K_ESCAPE;
      if bytes >= 3 { padCount := UnChar(sendParms[2]); }
      if bytes >= 4 { padChar := Ktrans(sendParms[3]); }
      if bytes >= 5 { eol := UnChar(sendParms[4]); }
      if bytes >= 6 { quote := sendParms[5]; }
    }

    /** The answers to the first `bytes` parameters of the sender. */
    static method OwnParms(bytes: nat) returns (answer: seq<Byte>)
      ensures answer == AnswerTo(bytes)
    {
      assert ToChar(94) == 126 && ToChar(1) == 33 && ToChar(0) == 32 && ToChar(END_CHAR) == 45 && ToChar(2) == 34;
      hide ToChar;
      answer := [];
      if bytes < 1 { return; }
      answer := answer + [ToChar(94)];
      if bytes < 2 { return; }
      answer := answer + [ToChar(1)];
      if bytes < 3 { return; }
      answer := answer + [ToChar(0)];
      if bytes < 4 { return; }
      answer := answer + [0x40];
      if bytes < 5 { return; }
      answer := answer + [ToChar(END_CHAR)];
      if bytes < 6 { return; }
      answer := answer + [0x23];
      if bytes < 7 { return; }
      answer := answer + [0x4E];
      if bytes < 8 { return; }
      answer := answer + [0x31];
      if bytes < 9 { return; }
      answer := answer + [0x4E];
      if bytes < 10 { return; }
      answer := answer + [ToChar(2), ToChar(0), ToChar(94), ToChar(94)];
    }

    /** From the type character on. */
    method GetTail(length0: nat, sum0: nat) returns (status: Status, kind: int, ghost data: seq<Byte>)
      requires Buffered([])
      modifies this, sendParms
      ensures Valid()
      ensures Packet(Good, n, kind, data, status, pos) == Tail(input, old(pos), length0, n, sum0)
      ensures Now() == Deliver(old(Now()), kind, data) && (kind == SEND_TYPE ==> Buffered(data))
    {
      hide Body, LongHeader, Feed;
      data, kind := [], NO_TYPE;
      DeliverNothing(Now(), kind);
      var c;
      c, status := Get();
      if status != Good { return; }
      kind := c;
      DeliverNothing(Now(), kind);
      var sum, length := sum0 + c, length0 - 2;
      if length == -2 {
        status, length, sum := GetLength(sum);
        if status != Good { return; }
      }
      status, data := GetBody(c, length, sum);
    }

    /** One packet, from the character after START_CHAR. */
    method GetPacket() returns (status: Status, kind: int)
      requires Valid()
      modifies this, sendParms
      ensures Valid()
      ensures var p := Parse(input, old(pos), old(n));
              Now() == Turn(old(Now()), p) && pos == p.at && status == p.status && kind == p.kind
    {
      hide Tail, Deliver, Told, Ktrans, ToChar, UnChar, Feed, Checkpoint, Accept, Restore;
      sendPtr := 0;
      kind := NO_TYPE;
      var len, c;
      len, status := Get();
      if status == Good {
        c, status := Get();
        if status == Good {
          CompareNumber(UnChar(c));
          ghost var before := Now();
          ghost var data;
          status, kind, data := GetTail(UnChar(len), len as nat + c as nat);
          DeliverKeeps(before, kind, data);
          if status == Good {
            Acknowledge(kind, data);
            return;
          }
        }
      }
      if status == Bad {
        PacketError();
      }
    }

    /** The same number again undoes the packet, another one makes a checkpoint. */
    method CompareNumber(m: nat)
      requires Valid()
      modifies this`n, this`lastN, this`escape, this`addr, this`escapeSaved, this`addrSaved
      ensures Valid() && n == m && Now() == Checkpoint(old(Now()), m)
    {
      hide Told;
      n := m;
      if n == lastN {
        KDataRestore();
      } else {
        lastN := n;
        KDataSave();
      }
    }

    method Acknowledge(kind: int, ghost data: seq<Byte>)
      requires Valid() && (kind == SEND_TYPE ==> Buffered(data))
      modifies this`quote, this`sendPtr, this`eol, this`padCount, this`padChar, this`replies, this`sent
      ensures Valid() && Now() == Accept(old(Now()), kind, data)
    {
      if kind == SEND_TYPE {
        HandleSendPacket(data);
      } else {
        SendAck();
      }
    }

    /** `while (serial_getc() != START_CHAR);` */
    method SkipToStart() returns (found: bool)
      requires Valid()
      modifies this`pos
      ensures Valid() && (found <==> Hunt(input, old(pos)) != -1) && (found ==> pos == Hunt(input, old(pos)))
    {
      while pos < |input|
        invariant Valid() && Hunt(input, pos) == Hunt(input, old(pos))
        decreases |input| - pos
      {
        var c := input[pos];
        pos := pos + 1;
        if c == START_CHAR { return true; }
      }
      found := false;
    }

    /** k_recv, until the transmission is broken off or the line falls silent. */
    method KRecv()
      requires Valid()
      modifies this, sendParms
      ensures Valid() && Now() == Run(old(Now()), input, old(pos))
      ensures sent == Lines(replies)
    {
      hide Parse, Turn, Hunt;
      var done := false;
      while !done
        invariant Valid()
        invariant Run(old(Now()), input, old(pos)) == if done then Now() else Run(Now(), input, pos)
        decreases |input| - pos, !done
      {
        var found := SkipToStart();
        if !found { return; }
        ParseMoves(input, pos, n);
        var status, kind := GetPacket();
        done := status == Starved || (status == Good && kind == BREAK_TYPE);
      }
    }
  }

  /** The line has carried the replies, and the wishes are those of the last. */
  ghost predicate Told(w: Wishes, sent: seq<Byte>, replies: seq<Reply>) {
    w == InForce(replies) && sent == Lines(replies)
  }

  lemma ToldMore(w: Wishes, sent: seq<Byte>, replies: seq<Reply>, r: Reply)
    requires Told(w, sent, replies) && !r.Parms?
    ensures Told(w, sent + ReplyLine(w, r), replies + [r])
  {
    hide ReplyLine;
    assert (replies + [r])[..|replies|] == replies;
  }

  lemma ToldAnew(w: Wishes, sent: seq<Byte>, replies: seq<Reply>, r: Reply)
    requires Told(w, sent, replies) && r.Parms?
    ensures Told(WishesOf(r.asked), sent + ReplyLine(WishesOf(r.asked), r), replies + [r])
  {
    hide ReplyLine, WishesOf;
    assert (replies + [r])[..|replies|] == replies;
  }

  lemma SumAppend(s: seq<Byte>, c: Byte)
    ensures Sum(s + [c]) == Sum(s) + c
  {
    assert (s + [c])[..|s|] == s;
  }

  lemma DeliverKeeps(s: State, kind: int, data: seq<Byte>)
    ensures var t := Deliver(s, kind, data);
            t.n == s.n && t.lastN == s.lastN && t.saved == s.saved
            && t.quote == s.quote && t.replies == s.replies
  {
  }

  lemma DeliverNothing(s: State, kind: int)
    ensures Deliver(s, kind, []) == s && Sum([]) == 0
  {
  }

  lemma DeliverAppend(s: State, kind: int, data: seq<Byte>, c: Byte)
    ensures Deliver(s, kind, data + [c]) ==
            (if kind == DATA_TYPE
              then Deliver(s, kind, data).(place := CharStep(Deliver(s, kind, data).place, s.quote, c))
              else Deliver(s, kind, data))
    ensures Deliver(s, kind, data).quote == s.quote
  {
    assert (data + [c])[..|data|] == data;
  }
}
