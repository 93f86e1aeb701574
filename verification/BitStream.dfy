// The compressed input as a stream of bits, and the bit buffer's `|=`.
module BitStream {
  import opened Words

  type Byte = n: nat | n < 256

  /** The stream as one number, first byte lowest. */
  function Number(input: seq<Byte>): nat {
    if |input| == 0 then 0 else input[0] + 256 * Number(input[1..])
  }

  /** The stream from bit `pos` on; beyond the end there are only zeros. */
  function Bits(input: seq<Byte>, pos: nat): nat {
    Shr(pos, Number(input))
  }

  /** `x | y` */
  function Or(x: nat, y: nat): (r: nat)
    decreases x + y
  {
    if x == 0 then y else if y == 0 then x
    else (if x % 2 == 1 || y % 2 == 1 then 1 else 0) + 2 * Or(x / 2, y / 2)
  }

  lemma BitsSkip(input: seq<Byte>, pos: nat, k: nat)
    ensures Shr(k, Bits(input, pos)) == Bits(input, pos + k)
  {
    ShrShr(pos, k, Number(input));
  }

  lemma {:induction false} ByteAt(input: seq<Byte>, p: nat)
    requires p < |input|
    ensures Low(8, Bits(input, 8 * p)) == input[p]
  {
    assert Pow2(8) == 256;
    Recombine(8, Number(input[1..]), input[0]);
    if p > 0 {
      ByteAt(input[1..], p - 1);
      ShrShr(8, 8 * (p - 1), Number(input));
    }
  }

  lemma OrZeroPad(x: nat, y: nat)
    ensures Or(x, 0) == x && Or(0, y) == y
  {
  }

  /** One `or` on the lowest bit and the rest. */
  lemma OrStep(x: nat, y: nat)
    ensures Or(x, y) == (if x % 2 == 1 || y % 2 == 1 then 1 else 0) + 2 * Or(x / 2, y / 2)
  {
  }

  /** Adding a byte to a bit buffer that already holds the next `have` bits of
      the stream `s`, `k` of which are accounted for: the buffer holds the next
      bits up to the end of that byte, and the bits it already had above `k`
      do no harm because they are the same bits. */
  lemma {:induction false} OrByte(have: nat, k: nat, s: nat)
    requires k <= have
    ensures Or(Low(have, s), Low(8, Shr(k, s)) * Pow2(k)) == Low(if have > k + 8 then have else k + 8, s)
  {
    hide Or, Pow2;
    if k == 0 {
      OrSame(have, 8, s);
      UnitFactor(Low(8, s));
    } else {
      var z, y' := Low(8, Shr(k - 1, s / 2)), Low(8, Shr(k - 1, s / 2)) * Pow2(k - 1);
      assert Shr(k, s) == Shr(k - 1, s / 2);
      Doubled(z, k);
      OrByte(have - 1, k - 1, s / 2);
      OrStep(Low(have, s), 2 * y');
    }
  }

  lemma UnitFactor(x: nat)
    ensures x * Pow2(0) == x
  {
  }

  lemma Doubled(z: nat, k: nat)
    requires k > 0
    ensures z * Pow2(k) == 2 * (z * Pow2(k - 1))
  {
  }

  lemma {:induction false} OrSame(a: nat, b: nat, s: nat)
    ensures Or(Low(a, s), Low(b, s)) == Low(if a > b then a else b, s)
  {
    hide Or, Pow2;
    if a > 0 && b > 0 {
      OrSame(a - 1, b - 1, s / 2);
      OrStep(Low(a, s), Low(b, s));
    } else {
      OrZeroPad(Low(a, s), Low(b, s));
    }
  }
}
