// The sliding window: at once the queue of bytes waiting to be delivered and
// the history that distances point back into.
module SlidingWindow {
  import opened ReturnCodes
  import opened BitStream
  import opened Adler

  const WSIZE: nat := 32768   // 1 << MAX_WBITS

  /** The window holds the last WSIZE bytes of the history, the oldest at the
      write position. */
  ghost predicate Holds(d: seq<Byte>, write: nat, hist: seq<Byte>) {
    |d| == WSIZE && write <= WSIZE && |hist| >= WSIZE
    && (forall x :: 0 <= x < write ==> d[x] == hist[|hist| - write + x])
    && (forall x :: write <= x < WSIZE ==> d[x] == hist[|hist| - write - WSIZE + x])
  }

  /** How many bytes lie between the read and the write position. */
  function Between(read: nat, write: nat): int {
    if read <= write then write - read else WSIZE - read + write
  }

  lemma HoldsAfter(d: seq<Byte>, write: nat, hist: seq<Byte>, b: Byte)
    requires Holds(d, write, hist) && write < WSIZE
    ensures Holds(d[write := b], write + 1, hist + [b])
  {
  }

  lemma HoldsWrapped(d: seq<Byte>, hist: seq<Byte>)
    requires Holds(d, WSIZE, hist)
    ensures Holds(d, 0, hist)
  {
  }

  /** The pending bytes up to the end of the window or the write position. */
  lemma HoldsPending(d: seq<Byte>, read: nat, write: nat, hist: seq<Byte>, n: nat)
    requires Holds(d, write, hist) && read < WSIZE
    requires n <= (if read <= write then write else WSIZE) - read
    ensures n <= Between(read, write) <= WSIZE
    ensures d[read..read + n] == hist[|hist| - Between(read, write)..|hist| - Between(read, write) + n]
  {
    var start := |hist| - Between(read, write);
    var a, b := d[read..read + n], hist[start..start + n];
    forall i | 0 <= i < n ensures a[i] == b[i] {
      assert a[i] == d[read + i];
    }
  }

  lemma Joined(h: seq<Byte>, a: nat, b: nat, n: nat)
    requires a <= b && b + n <= |h|
    ensures h[a..b] + h[b..b + n] == h[a..b + n]
  {
  }

  class Window {
    const data: array<Byte>
    var read: nat           // from here on bytes are pending
    var write: nat          // where the next byte goes
    var out: seq<Byte>      // what has been delivered
    var availOut: nat       // how much more may be
    const checked: bool     // whether a checksum is kept
    var check: U32          // of what has been delivered
    const first: seq<Byte>  // what the window held to begin with
    ghost var hist: seq<Byte>  // that, followed by every byte decoded so far

    ghost predicate Valid()
      reads this, data
    {
      read < WSIZE && write <= WSIZE && data.Length == WSIZE && Holds(data[..], write, hist) && |first| == WSIZE
      && WSIZE + Pending() <= |hist| && first == hist[..WSIZE]
      && out == hist[WSIZE..|hist| - Pending()]
      && (checked ==> check == Checksum(1, out))
    }

    /** Bytes decoded but not delivered. */
    function Pending(): (r: int)
      reads this
    {
      Between(read, write)
    }

    /** WAVAIL: bytes to the end of the window or to just before the read pointer. */
    function Avail(): int
      reads this
    {
      if write < read then read - write - 1 else WSIZE - write
    }

    constructor (memory: array<Byte>, availOut: nat, checked: bool)
      requires memory.Length == WSIZE
      ensures Valid() && data == memory && hist == memory[..] && out == []
      ensures this.availOut == availOut && this.checked == checked
    {
      data := memory;
      read, write, out := 0, 0, [];
      this.availOut, this.checked := availOut, checked;
      check := 1;
      first := memory[..];
      hist := memory[..];
      new;
      assert Reduced(Unpack(1), []) == Unpack(1);
      assert hist[WSIZE..|hist|] == [];
    }

    /** Delivers `n` bytes from the read position on. */
    method Deliver(n: nat)
      requires data.Length == WSIZE && read + n <= WSIZE && n <= availOut
      requires checked ==> check == Checksum(1, out)
      modifies this`out, this`availOut, this`check
      ensures out == old(out) + data[read..read + n] && availOut == old(availOut) - n
      ensures checked ==> check == Checksum(1, out)
    {
      availOut := availOut - n;
      if checked {
        ChecksumAppend(1, out, data[read..read + n]);
        check := Adler32(check, false, data[read..read + n]);
      }
      out := out + data[read..read + n];
    }

    /** inflate_flush: delivers as much as possible of what is pending. */
    method Flush(r0: int) returns (r: int)
      requires Valid()
      modifies this`read, this`write, this`out, this`availOut, this`check
      ensures Valid()
      ensures var n := if old(Pending()) < old(availOut) then old(Pending()) else old(availOut);
              Pending() == old(Pending()) - n && availOut == old(availOut) - n
              && r == if n > 0 && r0 == Z_BUF_ERROR then Z_OK else r0
      ensures |out| + availOut == old(|out| + availOut)
      ensures write == old(write) || (write == 0 && old(write) == WSIZE)
    {
      hide Holds, Checksum, Reduced;
      r := r0;
      var n := (if read <= write then write else WSIZE) - read;
      if n > availOut { n := availOut; }
      if n > 0 && r == Z_BUF_ERROR { r := Z_OK; }
      HoldsPending(data[..], read, write, hist, n);
      Segment(n);
      if read == WSIZE {
        r := FlushRest(r);
      }
    }

    /** The pointers have come to the end of the window: wrap them and deliver
        what lies at its beginning. */
    method FlushRest(r0: int) returns (r: int)
      requires read == WSIZE && write <= WSIZE && data.Length == WSIZE && Holds(data[..], write, hist)
               && |first| == WSIZE
      requires var write' := if write == WSIZE then 0 else write;
               WSIZE + write' <= |hist| && first == hist[..WSIZE] && out == hist[WSIZE..|hist| - write']
      requires checked ==> check == Checksum(1, out)
      modifies this`read, this`write, this`out, this`availOut, this`check
      ensures Valid() && write == if old(write) == WSIZE then 0 else old(write)
      ensures var n := if write < old(availOut) then write else old(availOut);
              Pending() == write - n && availOut == old(availOut) - n
              && r == if n > 0 && r0 == Z_BUF_ERROR then Z_OK else r0
      ensures |out| + availOut == old(|out| + availOut)
    {
      hide Holds, Checksum, Reduced;
      r := r0;
      read := 0;
      if write == WSIZE {
        HoldsWrapped(data[..], hist);
        write := 0;
      }
      var n := write - read;
      if n > availOut { n := availOut; }
      if n > 0 && r == Z_BUF_ERROR { r := Z_OK; }
      HoldsPending(data[..], read, write, hist, n);
      Segment(n);
    }

    /** One of the two copies of inflate_flush; may leave `read` at the end. */
    method Segment(n: nat)
      requires data.Length == WSIZE && read < WSIZE && write <= WSIZE && Holds(data[..], write, hist)
      requires n <= (if read <= write then write else WSIZE) - read && n <= availOut
      requires WSIZE + Pending() <= |hist| && out == hist[WSIZE..|hist| - Pending()]
      requires checked ==> check == Checksum(1, out)
      modifies this`read, this`out, this`availOut, this`check
      ensures read == old(read) + n && availOut == old(availOut) - n && |out| == old(|out|) + n
      ensures out == hist[WSIZE..|hist| - old(Pending()) + n]
      ensures checked ==> check == Checksum(1, out)
    {
      HoldsPending(data[..], read, write, hist, n);
      ghost var from := |hist| - Pending();
      Deliver(n);
      assert data[..][read..read + n] == data[read..read + n];
      Joined(hist, WSIZE, from, n);
      read := read + n;
    }

    /** WRAP */
    method Wrap()
      requires Valid()
      modifies this`write
      ensures Valid() && Pending() == old(Pending())
      ensures if old(write) == WSIZE && read != 0 then write == 0 else write == old(write)
    {
      if write == WSIZE && read != 0 {
        HoldsWrapped(data[..], hist);
        write := 0;
      }
    }

    /** NEEDOUT: makes room for a byte, delivering what is pending if need be. */
    method NeedOut(r0: int) returns (ok: bool, r: int)
      requires Valid()
      modifies this`read, this`write, this`out, this`availOut, this`check
      ensures Valid()
      ensures ok ==> Avail() > 0 && r == Z_OK
      ensures r == r0 || r == Z_OK
      ensures !ok ==> availOut == 0 && Pending() > 0
      ensures write == old(write) || (write == 0 && old(write) == WSIZE)
      ensures |out| + availOut == old(|out| + availOut)
    {
      r := r0;
      if Avail() == 0 {
        Wrap();
        if Avail() == 0 {
          r := Flush(r);
          Wrap();
          if Avail() == 0 {
            return false, r;
          }
        }
      }
      return true, Z_OK;
    }

    /** OUTBYTE */
    method OutByte(b: Byte)
      requires Valid() && Avail() > 0
      modifies this`write, this`hist, data
      ensures Valid() && hist == old(hist) + [b] && write == old(write) + 1
      ensures Pending() == old(Pending()) + 1 && Avail() == old(Avail()) - 1
    {
      ghost var d := data[..];
      HoldsAfter(d, write, hist, b);
      data[write] := b;
      assert data[..] == d[write := b];
      write, hist := write + 1, hist + [b];
    }

    /** Where the byte `dist` positions back is kept. */
    function Source(dist: nat): int
      reads this
    {
      if write < dist then WSIZE - (dist - write) else write - dist
    }

    lemma SourceIs(dist: nat)
      requires Valid() && 1 <= dist <= WSIZE
      ensures 0 <= Source(dist) < WSIZE && data[Source(dist)] == hist[|hist| - dist]
    {
      assert data[..][Source(dist)] == data[Source(dist)];
    }
  }
}
