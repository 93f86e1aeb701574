// The input side of the inflater: next_in, avail_in and the bit buffer, with
// the macros NEEDBITS, GRABBITS, DUMPBITS and UNGRAB.
module BitInput {
  import opened Words
  import opened BitStream

  /** Largest number of bits the 32-bit buffer can hold. */
  const BUFFER_BITS: nat := 32

  class BitReader {
    const input: seq<Byte>  // the whole stream; the caller hands out a part at a time
    var p: nat              // where the next byte is
    var n: nat              // how many may be taken
    var b: nat              // the bits taken and not yet used
    var k: nat              // how many they are
    ghost var have: nat     // stream bits the buffer really holds

    /** The buffer holds the next bits of the stream.  It may hold more than the
        `k` it admits to: UNGRAB gives bytes back without clearing them. */
    ghost predicate Valid()
      reads this
    {
      p + n <= |input| && k <= have <= BUFFER_BITS && k <= 8 * p
      && b == Low(have, Bits(input, 8 * p - k))
    }

    /** Position of the next unread bit. */
    ghost function Pos(): nat
      requires Valid()
      reads this
    {
      8 * p - k
    }

    /** The unread part of the stream. */
    ghost function Rest(): nat
      requires Valid()
      reads this
    {
      Bits(input, Pos())
    }

    constructor (input: seq<Byte>, avail: nat)
      requires avail <= |input|
      ensures Valid() && this.input == input && Pos() == 0 && p + n == avail && k == 0
    {
      this.input := input;
      p, n, b, k, have := 0, avail, 0, 0, 0;
    }

    /** `(uInt)b & inflate_mask[j]` */
    function Peek(j: nat): nat
      reads this
    {
      Low(j, b)
    }

    lemma PeekIs(j: nat)
      requires Valid() && j <= k
      ensures Peek(j) == Low(j, Rest())
    {
      LowLow(j, have - j, Rest());
    }

    /** `b |= ((uLong)NEXTBYTE) << k; k += 8` */
    method NextByte()
      requires Valid() && n > 0 && k + 8 <= BUFFER_BITS
      modifies this
      ensures Valid() && Pos() == old(Pos()) && p + n == old(p + n)
      ensures n == old(n) - 1 && k == old(k) + 8
    {
      hide Low, Shr, Pow2, Or, Number, Bits;
      ghost var rest := Rest();
      ByteAt(input, p);
      BitsSkip(input, Pos(), k);
      OrByte(have, k, rest);
      b := Or(b, input[p] * Pow2(k));
      have := if have > k + 8 then have else k + 8;
      p, n, k := p + 1, n - 1, k + 8;
    }

    /** NEEDBITS: fails when the input runs out first. */
    method NeedBits(j: nat) returns (ok: bool, progress: bool)
      requires Valid() && (j <= 24 || (j == 32 && k % 8 == 0))
      modifies this
      ensures Valid() && Pos() == old(Pos()) && p + n == old(p + n)
      ensures ok ==> k >= j && (k < j + 8 || k == old(k))
      ensures !ok ==> n == 0 && k < j
      ensures k % 8 == old(k) % 8
      ensures progress <==> p > old(p)
      ensures old(p) <= p
    {
      hide Low, Shr, Pow2, Or, Number, Bits;
      ok, progress := true, false;
      while k < j
        invariant Valid() && Pos() == old(Pos()) && p + n == old(p + n)
        invariant k < j + 8 || k == old(k)
        invariant k % 8 == old(k) % 8
        invariant old(p) <= p && (progress <==> p > old(p))
        decreases j - k
      {
        if n == 0 { return false, progress; }
        NextByte();
        progress := true;
      }
    }

    /** GRABBITS: the caller knows that enough input is left. */
    method GrabBits(j: nat)
      requires Valid() && j <= 24 && j <= k + 8 * n
      modifies this
      ensures Valid() && Pos() == old(Pos()) && p + n == old(p + n)
      ensures k >= j && (k < j + 8 || k == old(k))
      ensures 8 * n + k == old(8 * n + k)
    {
      hide Low, Shr, Pow2, Or, Number, Bits;
      while k < j
        invariant Valid() && Pos() == old(Pos()) && p + n == old(p + n)
        invariant k < j + 8 || k == old(k)
        invariant 8 * n + k == old(8 * n + k)
        decreases j - k
      {
        NextByte();
      }
    }

    /** DUMPBITS: `b >>= j; k -= j` */
    method DumpBits(j: nat)
      requires Valid() && j <= k
      modifies this`b, this`k, this`have
      ensures Valid() && Pos() == old(Pos()) + j && k == old(k) - j
      ensures Rest() == Shr(j, old(Rest()))
    {
      hide Low, Shr, Pow2, Or, Number, Bits;
      BitsSkip(input, Pos(), j);
      LowLow(j, have - j, Rest());
      b := Shr(j, b);
      k, have := k - j, have - j;
    }

    /** `b = k = 0`: dumps what is in the buffer. */
    method Clear()
      requires Valid()
      modifies this`b, this`k, this`have
      ensures Valid() && Pos() == old(Pos()) + old(k) && k == 0 && have == 0
    {
      b, k, have := 0, 0, 0;
    }

    /** Takes a byte past the empty bit buffer. */
    method TakeByte() returns (c: Byte)
      requires Valid() && k == 0 && have == 0 && n > 0
      modifies this`p, this`n
      ensures Valid() && Pos() == old(Pos()) + 8 && p + n == old(p + n) && k == 0 && have == 0
      ensures n == old(n) - 1 && c == Low(8, old(Rest()))
    {
      ByteAt(input, p);
      c := input[p];
      p, n := p + 1, n - 1;
    }

    /** Gives back one unused byte. */
    method ReturnByte()
      requires Valid() && k > 7
      modifies this`p, this`n, this`k
      ensures Valid() && Pos() == old(Pos()) && p + n == old(p + n) && k == old(k) - 8
    {
      k, n, p := k - 8, n + 1, p - 1;
    }

    /** UNGRAB: gives back whole bytes. */
    method Ungrab()
      requires Valid()
      modifies this`n, this`p, this`k
      ensures Valid() && Pos() == old(Pos()) && p + n == old(p + n) && k == old(k) % 8
    {
      var c := k / 8;
      n, p, k := n + c, p - c, k % 8;
    }
  }
}
