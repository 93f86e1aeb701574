// simple_strtoul: the number that a string begins with.
module Numbers {
  import opened EnvSpec

  const WORD_VALUES: nat := 0x1_0000_0000

  /** The value of a hexadecimal digit, -1 if it is none. */
  function DigitOf(c: Char): (v: int)
    ensures -1 <= v < 16
  {
    if 0x30 <= c <= 0x39 then c - 0x30
    else if 0x41 <= c <= 0x46 then c - 0x37
    else if 0x61 <= c <= 0x66 then c - 0x57 else -1
  }

  predicate IsDigit(c: Char, base: nat) {
    0 <= DigitOf(c) < base
  }

  /** The digits that `s` begins with, after those that make `acc`. */
  function Digits(s: seq<Char>, base: nat, acc: nat): nat {
    if |s| == 0 || !IsDigit(s[0], base) then acc
    else Digits(s[1..], base, (acc * base + DigitOf(s[0])) % WORD_VALUES)
  }

  /** A zero, and perhaps an x, come before the digits. */
  predicate Prefixed(s: seq<Char>) {
    |s| > 2 && s[0] == 0x30 && s[1] == 0x78 && IsDigit(s[2], 16)
  }

  function StrtoulOf(s: seq<Char>, base: nat): nat {
    if Prefixed(s) then Digits(s[2..], 16, 0)
    else Digits(if |s| > 0 && s[0] == 0x30 then s[1..] else s, if base != 0 then base
      else if |s| > 0 && s[0] == 0x30 then 8 else 10, 0)
  }

  /** simple_strtoul */
  method SimpleStrtoul(cp: seq<Char>, base0: nat) returns (result: nat)
    ensures result == StrtoulOf(cp, base0)
  {
    var i, base := 0, base0;
    if i < |cp| && cp[i] == 0x30 {
      i := i + 1;
      if i + 1 < |cp| && cp[i] == 0x78 && IsDigit(cp[i + 1], 16) {
        base := 16;
        i := i + 1;
      }
      if base == 0 { base := 8; }
    }
    if base == 0 { base := 10; }
    result := 0;
    while i < |cp| && IsDigit(cp[i], base)
      invariant i <= |cp| && Digits(cp[i..], base, result) == StrtoulOf(cp, base0)
    {
      assert cp[i..][0] == cp[i] && cp[i..][1..] == cp[i + 1..];
      result := (result * base + DigitOf(cp[i])) % WORD_VALUES;
      i := i + 1;
    }
  }

  // ------------------------------------------------------- what is written is read

  /** The character for a digit; above nine a letter, small or capital. */
  function DigitChar(d: nat, capital: bool): Char
    requires d < 16
  {
    if d < 10 then 0x30 + d else if capital then 0x37 + d else 0x57 + d
  }

  lemma DigitRead(d: nat, capital: bool)
    requires d < 16
    ensures DigitOf(DigitChar(d, capital)) == d && (DigitChar(d, capital) == 0x30 <==> d == 0)
    ensures DigitChar(d, capital) != 0x78
  {
  }

  /** A number as it is written to a base. */
  function Numeral(n: nat, base: nat, capital: bool): (s: seq<Char>)
    requires 2 <= base <= 16
    ensures |s| > 0
  {
    (if n < base then [] else Shorter(n, base); Numeral(n / base, base, capital)) + [DigitChar(n % base, capital)]
  }

  lemma Shorter(n: nat, base: nat)
    requires 2 <= base <= n
    ensures 0 < n / base < n && n == n / base * base + n % base
  {
  }

  lemma {:induction false} DigitsAppend(s: seq<Char>, c: Char, base: nat, acc: nat)
    requires IsDigit(c, base) && forall i :: 0 <= i < |s| ==> IsDigit(s[i], base)
    ensures Digits(s + [c], base, acc) == (Digits(s, base, acc) * base + DigitOf(c)) % WORD_VALUES
  {
    if |s| > 0 {
      var t := (s + [c])[1..];
      assert t == s[1..] + [c];
      DigitsAppend(s[1..], c, base, (acc * base + DigitOf(s[0])) % WORD_VALUES);
    } else {
      assert ([] + [c])[1..] == [];
      assert s + [c] == [c] && [c][1..] == [];
    }
  }

  lemma OneMore(n: nat, base: nat, capital: bool)
    requires 2 <= base <= 16
    ensures Numeral(n, base, capital) ==
            (if n < base then []
              else Shorter(n, base); Numeral(n / base, base, capital)) + [DigitChar(n % base, capital)]
  {
  }

  /** In 32-bit arithmetic the high part may be cut off before the next digit. */
  lemma CutBefore(q: nat, base: nat, d: nat)
    ensures (q % WORD_VALUES * base + d) % WORD_VALUES == (q * base + d) % WORD_VALUES
  {
    var k := q / WORD_VALUES;
    var x := q % WORD_VALUES * base + d;
    assert q == k * WORD_VALUES + q % WORD_VALUES;
    assert q * base + d == (k * base) * WORD_VALUES + x;
    AddWhole(x, k * base);
  }

  lemma {:induction false} AddWhole(x: nat, k: nat)
    ensures (k * WORD_VALUES + x) % WORD_VALUES == x % WORD_VALUES
  {
    if k > 0 {
      AddWhole(x, k - 1);
      assert k * WORD_VALUES + x == (k - 1) * WORD_VALUES + x + WORD_VALUES;
    }
  }

  lemma {:induction false} NumeralDigits(n: nat, base: nat, capital: bool)
    requires 2 <= base <= 16
    ensures forall i :: 0 <= i < |Numeral(n, base, capital)| ==> IsDigit(Numeral(n, base, capital)[i], base)
    ensures Digits(Numeral(n, base, capital), base, 0) == n % WORD_VALUES
    ensures n > 0 ==> Numeral(n, base, capital)[0] != 0x30
    ensures forall i :: 0 <= i < |Numeral(n, base, capital)| ==> Numeral(n, base, capital)[i] != 0x78
  {
    hide Digits, DigitOf, Numeral, DigitChar;
    DigitRead(n % base, capital);
    OneMore(n, base, capital);
    if n < base {
      DigitsAppend([], DigitChar(n, capital), base, 0);
      assert Digits([], base, 0) == 0 by { NoDigits(base, 0); }
    } else {
      Shorter(n, base);
      NumeralDigits(n / base, base, capital);
      DigitsAppend(Numeral(n / base, base, capital), DigitChar(n % base, capital), base, 0);
      CutBefore(n / base, base, n % base);
    }
  }

  lemma NoDigits(base: nat, acc: nat)
    ensures Digits([], base, acc) == acc
  {
  }

  /** A number that has been written to a base is read back, without what exceeds 32
      bits, when that base is asked for; with 0x before it, to base 16 whatever is
      asked for. */
  lemma NumeralRead(n: nat, base: nat, capital: bool, any: nat)
    requires 2 <= base <= 16
    ensures StrtoulOf(Numeral(n, base, capital), base) == n % 0x1_0000_0000
    ensures base == 16 ==> StrtoulOf([0x30, 0x78] + Numeral(n, base, capital), any) == n % 0x1_0000_0000
  {
    NumeralDigits(n, base, capital);
    var s := Numeral(n, base, capital);
    if n == 0 { assert s == [0x30] && s[1..] == []; }
    if base == 16 { assert ([0x30, 0x78] + s)[2..] == s; }
    hide Numeral;
  }

  /** When no base is asked for, a zero before the number tells base 8; without
      it the base is 10. */
  lemma NumeralOwnBase(n: nat, capital: bool)
    ensures StrtoulOf([0x30] + Numeral(n, 8, capital), 0) == n % 0x1_0000_0000
    ensures StrtoulOf(Numeral(n, 10, capital), 0) == n % 0x1_0000_0000
  {
    NumeralDigits(n, 8, capital);
    NumeralDigits(n, 10, capital);
    var s, t := Numeral(n, 8, capital), Numeral(n, 10, capital);
    assert ([0x30] + s)[1..] == s;
    if n == 0 { assert t == [0x30] && t[1..] == []; }
    hide Numeral;
  }

  /** A number ends before the first character that is no digit of its base. */
  lemma {:induction false} DigitsStop(s: seq<Char>, c: Char, rest: seq<Char>, base: nat, acc: nat)
    requires !IsDigit(c, base)
    ensures Digits(s + [c] + rest, base, acc) == Digits(s, base, acc)
  {
    hide DigitOf;
    var all := s + [c] + rest;
    if |s| > 0 {
      assert all[1..] == s[1..] + [c] + rest;
      if IsDigit(s[0], base) { DigitsStop(s[1..], c, rest, base, (acc * base + DigitOf(s[0])) % WORD_VALUES); }
    }
  }
}
