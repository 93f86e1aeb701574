// The Kermit receiver as a machine over the characters of the line: how a
// packet is read, what it does to the memory, and what is checkpointed.
module Kermit {
  type Byte = n: nat | n < 256

  const START_CHAR: Byte := 0x01
  const END_CHAR: Byte := 0x0D
  const SPACE: Byte := 0x20
  const K_ESCAPE: Byte := 0x23
  const SEND_TYPE: Byte := 0x53   // 'S'
  const DATA_TYPE: Byte := 0x44   // 'D'
  const ACK_TYPE: Byte := 0x59    // 'Y'
  const NACK_TYPE: Byte := 0x4E   // 'N'
  const BREAK_TYPE: Byte := 0x42  // 'B'
  const NO_TYPE := -1

  // ------------------------------------------------------------ characters

  /** tochar */
  function ToChar(x: nat): Byte { (x + SPACE) % 256 }

  /** untochar */
  function UnChar(c: Byte): nat { (c + 256 - SPACE) % 256 }

  /** `(c & 0xE0) == 0` */
  predicate Control(c: Byte) { c < SPACE }

  /** ktrans */
  function Ktrans(c: Byte): Byte {
    if c / 32 % 4 == 2 then c - 64
    else if c % 128 == 63 then (if c < 128 then 127 else 255)
    else c
  }

  /** The check character of a sum, type 1 */
  function CheckChar(sum: nat): Byte {
    ToChar((sum + sum / 64 % 4) % 64)
  }

  function Sum(s: seq<Byte>): nat {
    if |s| == 0 then 0 else Sum(s[..|s| - 1]) + s[|s| - 1]
  }

  // ------------------------------------------------------------- data state

  type Memory = map<int, Byte>

  /** What k_data_save keeps: the escape flag and the address to write to. */
  datatype Point = Point(escape: bool, addr: int)

  datatype Place = Place(point: Point, mem: Memory)

  /** k_data_char and bin_data_char */
  function CharStep(w: Place, quote: Byte, c: Byte): Place {
    if w.point.escape then Place(Point(false, w.point.addr + 1), w.mem[w.point.addr := Ktrans(c)])
    else if c == quote then Place(Point(true, w.point.addr), w.mem)
    else Place(Point(false, w.point.addr + 1), w.mem[w.point.addr := c])
  }

  function Feed(w: Place, quote: Byte, chars: seq<Byte>): Place {
    if |chars| == 0 then w else CharStep(Feed(w, quote, chars[..|chars| - 1]), quote, chars[|chars| - 1])
  }

  // ---------------------------------------------------------------- packets

  datatype Status = Good | Bad | Starved

  /** A packet as far as it could be read: `header` tells whether the length and
      sequence characters were valid, `kind` is the type or NO_TYPE, `data` are
      the characters up to the first invalid one, `at` is the position after the
      last character read. */
  datatype Packet = Packet(header: Status, seqno: nat, kind: int, data: seq<Byte>, status: Status, at: nat)

  function CharStatus(input: seq<Byte>, pos: nat): Status {
    if pos >= |input| then Starved else if Control(input[pos]) then Bad else Good
  }

  /** The position after the character at `pos`, if there is one. */
  function After(input: seq<Byte>, pos: nat): nat {
    if pos < |input| then pos + 1 else pos
  }

  /** How many of the next `count` characters come before an invalid one or the end */
  function ValidChars(input: seq<Byte>, pos: nat, count: nat): (r: nat)
    ensures r <= count && (r > 0 ==> pos + r <= |input|)
    ensures forall i :: pos <= i < pos + r ==> !Control(input[i])
    ensures r < count ==> CharStatus(input, pos + r) != Good
    decreases count
  {
    if count == 0 || CharStatus(input, pos) != Good then 0 else 1 + ValidChars(input, pos + 1, count - 1)
  }

  /** The check character and the end of line. */
  function Ending(input: seq<Byte>, pos: nat, sum: nat): (Status, nat) {
    var st := CharStatus(input, pos);
    if st != Good then (st, After(input, pos))
    else if input[pos] != CheckChar(sum) then (Bad, pos + 1)
    else if pos + 1 >= |input| then (Starved, pos + 1)
    else (if input[pos + 1] == END_CHAR then Good else Bad, pos + 2)
  }

  /** The data characters and the ending; `length` counts the check character. */
  function Body(input: seq<Byte>, pos: nat, length: int, sum: nat): (seq<Byte>, Status, nat) {
    var count := if length > 1 then length - 1 else 0;
    var n := ValidChars(input, pos, count);
    var data := if n > 0 then input[pos..pos + n] else [];
    if n < count then (data, CharStatus(input, pos + n), After(input, pos + n))
    else
      var (st, at) := Ending(input, pos + n, sum + Sum(data));
      (data, st, at)
  }

  /** The two length characters of a long packet and the check of its header:
      the status, the length and the sum. */
  function LongHeader(input: seq<Byte>, pos: nat, sum: nat): (Status, nat, int, nat) {
    var s0 := CharStatus(input, pos);
    if s0 != Good then (s0, After(input, pos), 0, sum)
    else
      var s1 := CharStatus(input, pos + 1);
      if s1 != Good then (s1, After(input, pos + 1), 0, sum)
      else
        var sum2 := sum + input[pos] + input[pos + 1];
        var s2 := CharStatus(input, pos + 2);
        if s2 != Good then (s2, After(input, pos + 2), 0, sum)
        else if input[pos + 2] != CheckChar(sum2) then (Bad, pos + 3, 0, sum)
        else (Good, pos + 3, UnChar(input[pos]) * 95 + UnChar(input[pos + 1]), sum2 + input[pos + 2])
  }

  /** From the type character on; `length` is what the length character said. */
  function Tail(input: seq<Byte>, pos: nat, length: nat, n: nat, sum: nat): Packet {
    var st := CharStatus(input, pos);
    if st != Good then Packet(Good, n, NO_TYPE, [], st, After(input, pos))
    else
      var kind := input[pos];
      if length == 0 then
        var (ls, at, len, sum') := LongHeader(input, pos + 1, sum + kind);
        if ls != Good then Packet(Good, n, kind, [], ls, at)
        else
          var (data, status, at') := Body(input, at, len, sum');
          Packet(Good, n, kind, data, status, at')
      else
        var (data, status, at) := Body(input, pos + 1, length - 2, sum + kind);
        Packet(Good, n, kind, data, status, at)
  }

  /** The packet whose length character is at `pos`; `n0` is the sequence number
      of the packet before. */
  function Parse(input: seq<Byte>, pos: nat, n0: nat): Packet {
    var s0 := CharStatus(input, pos);
    if s0 != Good then Packet(s0, n0, NO_TYPE, [], s0, After(input, pos))
    else
      var s1 := CharStatus(input, pos + 1);
      if s1 != Good then Packet(s1, n0, NO_TYPE, [], s1, After(input, pos + 1))
      else Tail(input, pos + 2, UnChar(input[pos]), UnChar(input[pos + 1]), input[pos] as nat + input[pos + 1] as nat)
  }

  lemma ParseMoves(input: seq<Byte>, pos: nat, n0: nat)
    requires pos <= |input|
    ensures pos <= Parse(input, pos, n0).at <= |input|
  {
    hide CheckChar, Sum, UnChar;
  }

  // --------------------------------------------------------------- receiver

  /** Acknowledgements, and the one that answers what a send-initiate packet has
      asked for. */
  datatype Reply = Ack(n: nat) | Nack(n: nat) | Parms(n: nat, asked: seq<Byte>)

  /** The receiver's variables; `lastN` is -1 at first. */
  datatype State = State(place: Place, saved: Point, lastN: int, n: nat, quote: Byte, replies: seq<Reply>)

  /** The quote character that a send-initiate packet asks for. */
  function QuoteOf(data: seq<Byte>): Byte {
    if |data| >= 6 then data[5] else K_ESCAPE
  }

  const SEND_DATA_SIZE := 20

  /** What is kept of the characters of a send-initiate packet: the last that fits
      in the buffer is dropped. */
  function Asked(data: seq<Byte>): seq<Byte> {
    if |data| >= SEND_DATA_SIZE - 1 then data[..SEND_DATA_SIZE - 2] else data
  }

  /** The comparison of sequence numbers: the same again, or a checkpoint. */
  function Checkpoint(s: State, n: nat): State {
    if n == s.lastN then s.(n := n, place := Place(s.saved, s.place.mem))
    else s.(n := n, lastN := n, saved := s.place.point)
  }

  /** The characters of a data packet go to memory as they come. */
  function Deliver(s: State, kind: int, data: seq<Byte>): State {
    if kind == DATA_TYPE then s.(place := Feed(s.place, s.quote, data)) else s
  }

  /** packet_error */
  function Restore(s: State): State {
    s.(place := Place(s.saved, s.place.mem), replies := s.replies + [Nack(s.n)])
  }

  /** A complete packet is acknowledged. */
  function Accept(s: State, kind: int, data: seq<Byte>): State {
    if kind == SEND_TYPE then s.(quote := QuoteOf(data), replies := s.replies + [Parms(s.n, Asked(data))])
    else s.(replies := s.replies + [Ack(s.n)])
  }

  /** One turn of the main loop of k_recv. */
  function Turn(s: State, p: Packet): State {
    if p.header != Good then (if p.header == Bad then Restore(s.(n := p.seqno)) else s)
    else
      var t := Deliver(Checkpoint(s, p.seqno), p.kind, p.data);
      match p.status
      case Good => Accept(t, p.kind, p.data)
      case Bad => Restore(t)
      case Starved => t
  }

  /** Skips to the character after the next START_CHAR. */
  function Hunt(input: seq<Byte>, pos: nat): (r: int)
    ensures r == -1 || pos < r <= |input|
    ensures r > 0 ==> input[r - 1] == START_CHAR && forall i :: pos <= i < r - 1 ==> input[i] != START_CHAR
    ensures r == -1 ==> forall i :: pos <= i < |input| ==> input[i] != START_CHAR
    decreases |input| - pos
  {
    if pos >= |input| then -1 else if input[pos] == START_CHAR then pos + 1 else Hunt(input, pos + 1)
  }

  /** The whole of k_recv on everything the line will ever deliver. */
  function Run(s: State, input: seq<Byte>, pos: nat): State
    decreases |input| - pos
  {
    var start := Hunt(input, pos);
    if start == -1 then s
    else
      var p := Parse(input, start, s.n);
      ParseMoves(input, start, s.n);
      var t := Turn(s, p);
      if p.status == Starved || (p.status == Good && p.kind == BREAK_TYPE) then t
      else Run(t, input, p.at)
  }

  function Initial(start: int, mem: Memory): State {
    State(Place(Point(false, start), mem), Point(false, start), -1, 0, K_ESCAPE, [])
  }

  // ----------------------------------------------------------------- replies

  /** What the other end needs: characters before a packet, and one after it. */
  datatype Wishes = Wishes(pads: nat, pad: Byte, eol: Byte)

  function WishesOf(asked: seq<Byte>): Wishes {
    Wishes(if |asked| >= 3 then UnChar(asked[2]) else 0, if |asked| >= 4 then Ktrans(asked[3]) else 0,
      if |asked| >= 5 then UnChar(asked[4]) else END_CHAR)
  }

  /** The wishes that hold for the last reply: those of the last send-initiate
      packet. */
  function InForce(replies: seq<Reply>): Wishes {
    if |replies| == 0 then WishesOf([])
    else if replies[|replies| - 1].Parms? then WishesOf(replies[|replies| - 1].asked)
    else InForce(replies[..|replies| - 1])
  }

  /** The receiver's own parameters, as many as it was asked for; whoever asks for
      the tenth gets all of the capabilities. */
  function AnswerTo(count: nat): seq<Byte> {
    var all := [126, 33, 32, 64, 45, 35, 78, 49, 78, 34, 32, 126, 126];
    if count >= 10 then all else all[..count]
  }

  function ReplyKind(r: Reply): Byte {
    if r.Nack? then NACK_TYPE else ACK_TYPE
  }

  function ReplyData(r: Reply): seq<Byte> {
    if r.Parms? then AnswerTo(|r.asked|) else []
  }

  /** A C string. */
  function UpToZero(s: seq<Byte>): seq<Byte> {
    if |s| == 0 || s[0] == 0 then [] else [s[0]] + UpToZero(s[1..])
  }

  /** The packet without what comes before and after it. */
  function ReplyCore(r: Reply): seq<Byte> {
    var head := [ToChar(|ReplyData(r)| + 3), ToChar(r.n), ReplyKind(r)] + ReplyData(r);
    [START_CHAR] + head + [CheckChar(Sum(UpToZero(head)))]
  }

  function Pads(w: Wishes): seq<Byte> {
    seq(w.pads, _ => w.pad)
  }

  /** What is sent for one reply. */
  function ReplyLine(w: Wishes, r: Reply): seq<Byte> {
    Pads(w) + UpToZero(ReplyCore(r) + [w.eol])
  }

  /** What is sent for all of them. */
  function Lines(replies: seq<Reply>): seq<Byte> {
    if |replies| == 0 then []
    else Lines(replies[..|replies| - 1]) + ReplyLine(InForce(replies), replies[|replies| - 1])
  }
}
