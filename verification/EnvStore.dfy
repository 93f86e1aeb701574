// The environment in RAM, edited in place: getenv, envmatch and _do_setenv.
module EnvStore {
  import opened EnvSpec
  import opened Numbers
  import Crc32

  /** The bytes as crc32 takes them. */
  function Octets(d: seq<Char>): seq<Crc32.Octet> {
    seq(|d|, i requires 0 <= i < |d| => ToOctet(d[i]))
  }

  function ToOctet(c: Char): Crc32.Octet {
    OctetSmall(c);
    c as bv32
  }

  lemma OctetSmall(c: Char)
    ensures c as bv32 <= 0xff
  {
  }

  class Environment {
    const data: array<Char>     // memory from bi_env->data on
    const size: nat             // sizeof(bi_env->data); other data follow
    var crc: Crc32.Word         // bi_env->crc
    const table: seq<Crc32.Word>
    const rates: seq<nat>       // baudrate_table
    const lowest: seq<Char>     // the string at address 0
    var baud: nat               // bi_baudrate

    ghost predicate Holds(vars: seq<Var>)
      reads this, data
    {
      size <= data.Length && |Flat(vars)| < size && Stored(data[..], vars) && Crc32.IsTable(table)
    }

    ghost predicate CrcMatches()
      requires size <= data.Length
      reads this, data
    {
      crc == Crc32.Checksum(0, Octets(data[..size]))
    }

    constructor (data: array<Char>, size: nat, table: seq<Crc32.Word>, rates: seq<nat>, lowest: seq<Char>, baud: nat)
      requires 2 <= size <= data.Length && data[0] == data[1] == NUL && Crc32.IsTable(table)
      ensures Holds([]) && this.data == data && this.size == size && this.table == table
      ensures this.rates == rates && this.lowest == lowest && this.baud == baud
    {
      this.data, this.size, this.table, crc := data, size, table, 0;
      this.rates, this.lowest, this.baud := rates, lowest, baud;
      new;
      assert Flat([]) == [];
    }

    /** envmatch, on the line that begins at `i2` */
    method EnvMatch(s1: seq<Char>, i2: nat, ghost v: Var) returns (r: int)
      requires VarOK(v) && NUL !in s1 && i2 + |Line(v)| <= data.Length && data[i2..i2 + |Line(v)|] == Line(v)
      ensures r == if NameOf(s1) == v.name then i2 + |v.name| + 1 else -1
    {
      var j := 0;
      LineChars(v, 0);
      assert data[i2] == Line(v)[0];
      while (if j < |s1| then s1[j] else NUL) == data[i2 + j]
        invariant 0 <= j <= |s1| && j <= |v.name| && s1[..j] == v.name[..j] && data[i2 + j] == Line(v)[j]
        decreases |v.name| - j
      {
        LineChars(v, j);
        if j == |v.name| {
          NameIs(s1, j);
        }
        if s1[j] == EQUALS { return i2 + j + 1; }
        j := j + 1;
        LineChars(v, j);
        assert data[i2 + j] == data[i2..i2 + |Line(v)|][j];
      }
      NamePrefix(s1);
      LineChars(v, j);
      if j == |s1| && data[i2 + j] == EQUALS {
        NameIs(s1, j);
        return i2 + j + 1;
      }
      NoMatch(s1, v, j);
      r := -1;
    }

    /** The end of the line that begins at `i`. */
    method LineEnd(i: nat, ghost v: Var) returns (nxt: nat)
      requires VarOK(v) && i + |Line(v)| <= data.Length && data[i..i + |Line(v)|] == Line(v)
      ensures nxt == i + |Line(v)| - 1
    {
      nxt := i;
      LineChars(v, 0);
      assert data[i] == data[i..i + |Line(v)|][0];
      while data[nxt] != NUL
        invariant i <= nxt <= i + |Line(v)| - 1 && data[nxt] == Line(v)[nxt - i]
        decreases data.Length - nxt
      {
        LineChars(v, nxt - i);
        nxt := nxt + 1;
        assert data[nxt] == data[i..i + |Line(v)|][nxt - i];
      }
      LineChars(v, nxt - i);
    }

    /** The search of getenv and _do_setenv: the variable's line, its end and the
        position of its value. */
    method Search(name: seq<Char>, ghost vars: seq<Var>) returns (env: nat, nxt: nat, val: int, ghost k: nat)
      requires Holds(vars) && NUL !in name
      ensures val == -1 <==> Find(vars, NameOf(name)) == -1
      ensures val != -1 ==>
                k < |vars| && k == Find(vars, NameOf(name)) && env == Off(vars, k) && nxt + 1 == Off(vars, k + 1)
                            && val == env + |vars[k].name| + 1
    {
      hide Off, Flat, Line, NameOf, Find;
      env, nxt, val, k := 0, 0, -1, 0;
      OffAll(vars);
      while env < data.Length && data[env] != NUL
        invariant k <= |vars| && env == Off(vars, k) && val == -1
        invariant forall i :: 0 <= i < k ==> vars[i].name != NameOf(name)
        decreases |vars| - k
      {
        EndOrLine(data[..], vars, k);
        LineAt(data[..], vars, k);
        nxt := LineEnd(env, vars[k]);
        val := EnvMatch(name, env, vars[k]);
        if val >= 0 {
          FindUnique(vars, k);
          return;
        }
        env, k := nxt + 1, k + 1;
      }
      EndOrLine(data[..], vars, k);
      NoSuch(vars, NameOf(name));
    }

    /** getenv: the position of the value, or -1. */
    method GetEnv(name: seq<Char>, ghost vars: seq<Var>) returns (r: int)
      requires Holds(vars) && NUL !in name
      ensures NameOf(name) !in Meaning(vars) ==> r == -1
      ensures NameOf(name) in Meaning(vars) ==>
                var v := Meaning(vars)[NameOf(name)];
                0 <= r && r + |v| < data.Length && data[r..r + |v|] == v && data[r + |v|] == NUL
    {
      MeaningIs(vars, NameOf(name));
      var env, nxt;
      ghost var k;
      env, nxt, r, k := Search(name, vars);
      if r != -1 { ValueAt(data[..], vars, k); }
    }

    // ------------------------------------------------------------ _do_setenv

    /** Shifts the bytes from `nxt` on down to `env`, up to and including the
        first of the two zeros at the end; the result is where that one went. */
    method Shift(env0: nat, nxt0: nat, ghost d: seq<Char>, ghost vars: seq<Var>) returns (env: nat)
      requires data[..] == d && Stored(d, vars) && env0 < nxt0 < |Flat(vars)|
      modifies data
      ensures env + (nxt0 - env0) == |Flat(vars)| - 1
      ensures data[..env + 1] == d[..env0] + d[nxt0..|Flat(vars)|] && data[env + 1..] == d[env + 1..]
    {
      hide Flat, Stored;
      ghost var end := |Flat(vars)|;
      assert end < |d| by { FlatEnd(d, vars); }
      env := env0;
      var nxt := nxt0;
      while true
        invariant nxt < end && env + (nxt0 - env0) == nxt
        invariant data[..env] == d[..env0] + d[nxt0..nxt] && data[env..] == d[env..]
        decreases end - nxt
      {
        ghost var before := data[..];
        data[env] := data[nxt];
        Moved(d, before, data[..], env0, nxt0, env, nxt);
        nxt := nxt + 1;
        DoubleZero(d, vars, nxt);
        if data[env] == NUL && data[nxt] == NUL { break; }
        env := env + 1;
      }
    }

    /** Deletes the line at `env`, which ends at `nxt0`. */
    method Delete(env0: nat, nxt0: nat, ghost vars: seq<Var>, ghost k: nat)
      requires Holds(vars) && k < |vars| && env0 == Off(vars, k) && nxt0 + 1 == Off(vars, k + 1)
      modifies data
      ensures Holds(Without(vars, k)) && Behind(old(data[..]), data[..], size)
      ensures |vars| == 1 ==> data[..] == old(data[..])[0 := NUL][1 := NUL]
    {
      hide Flat, Stored, Without, Off;
      ghost var d := data[..];
      FlatEnd(d, vars);
      OffAll(vars);
      OffOrder(d, vars, k);
      EndOrLine(d, vars, k + 1);
      var env, nxt := env0, nxt0 + 1;
      if data[nxt] == NUL {
        if env > 0 {
          env := env - 1;
        } else {
          data[env] := NUL;
        }
      } else {
        env := Shift(env, nxt, d, vars);
      }
      env := env + 1;
      FirstLine(d, vars, k);
      ghost var e := data[..];
      assert e[env..] == d[env..];
      data[env] := NUL;
      Shrunk(d, data[..], vars, k);
      LaterSame(d, e, env);
      StillBehind(d, data[..], env + 1, size);
    }

    /** The position for a new line. */
    method FindEnd(ghost vars: seq<Var>) returns (env: nat)
      requires Holds(vars)
      ensures env == |Flat(vars)|
    {
      hide Flat, Stored;
      FlatEnd(data[..], vars);
      StartOrZero(data[..], vars);
      env := 0;
      while data[env] != NUL || data[env + 1] != NUL
        invariant env + 1 < data.Length && (vars == [] ==> env == 0) && (vars != [] ==> env < |Flat(vars)|)
        decreases data.Length - env
      {
        if vars != [] {
          DoubleZero(data[..], vars, env + 1);
        }
        env := env + 1;
      }
      if vars != [] { DoubleZero(data[..], vars, env + 1); }
      if env > 0 { env := env + 1; }
    }

    /** `while ((*env = *s++) != '\0') env++;` */
    method CopyString(env0: nat, s: seq<Char>) returns (env: nat)
      requires NUL !in s && env0 + |s| < data.Length
      modifies data
      ensures env == env0 + |s| && data[..env] == old(data[..env0]) + s && data[env] == NUL
      ensures data[env + 1..] == old(data[env + 1..])
    {
      var j := 0;
      while j < |s|
        invariant 0 <= j <= |s| && data[..env0 + j] == old(data[..env0]) + s[..j]
        invariant forall i :: env0 + j <= i < data.Length ==> data[i] == old(data[i])
      {
        data[env0 + j] := s[j];
        assert data[..env0 + j + 1] == data[..env0 + j] + [s[j]];
        j := j + 1;
      }
      env := env0 + j;
      data[env] := NUL;
    }

    /** Writes the new line and the final zero. */
    method Append(env0: nat, name: seq<Char>, vals: seq<seq<Char>>)
      requires NUL !in name && (forall i :: 0 <= i < |vals| ==> NUL !in vals[i]) && |vals| > 0
      requires env0 + |name| + |Tail(vals)| + 2 <= data.Length
      modifies data
      ensures data[..env0 + |name| + |Tail(vals)| + 1] == old(data[..env0]) + name + Tail(vals) + [NUL]
      ensures data[env0 + |name| + |Tail(vals)| + 1] == NUL
      ensures data[env0 + |name| + |Tail(vals)| + 2..] == old(data[env0 + |name| + |Tail(vals)| + 2..])
    {
      hide TailOf;
      var env := CopyString(env0, name);
      var i := 0;
      ghost var before := old(data[..env0]);
      NoTail(vals);
      while i < |vals|
        invariant 0 <= i <= |vals| && env == env0 + |name| + |TailOf(vals, i)|
        invariant |TailOf(vals, i)| <= |Tail(vals)|
        invariant data[..env] == before + name + TailOf(vals, i) && data[env] == NUL
        invariant data[env + 1..] == old(data[env + 1..])
      {
        TailMore(vals, i);
        TextMore(before + name, vals, i);
        env := AppendValue(env, if i == 0 then EQUALS else BLANK, vals[i]);
        i := i + 1;
      }
      assert data[..env + 1] == data[..env] + [NUL];
      env := env + 1;
      data[env] := NUL;
      assert data[..env] == before + name + Tail(vals) + [NUL];
    }

    /** A separator and a value. */
    method AppendValue(env0: nat, c: Char, s: seq<Char>) returns (env: nat)
      requires NUL !in s && env0 + 1 + |s| < data.Length
      modifies data
      ensures env == env0 + 1 + |s| && data[..env] == old(data[..env0]) + [c] + s && data[env] == NUL
      ensures data[env + 1..] == old(data[env + 1..])
    {
      data[env0] := c;
      assert data[..env0 + 1] == data[..env0] + [c];
      ghost var d := data[..];
      env := CopyString(env0 + 1, s);
    }

    method UpdateCrc()
      requires Crc32.IsTable(table) && size <= data.Length
      modifies this`crc
      ensures CrcMatches()
    {
      crc := Crc32.Crc32(table, 0, false, Octets(data[..size]));
    }

    /** Appends the definition if the length test lets it pass. */
    method Define(name: seq<Char>, vals: seq<seq<Char>>, ghost vars: seq<Var>) returns (rc: int)
      requires AllOK(vars) && Holds(Deleted(vars, name)) && Legal(name, vals) && vals != [] && data.Length >= 2 * size
      modifies data, this`crc
      ensures rc == if DefLength(name, vals) <= size then 0 else 1
      ensures rc != 0 ==> crc == old(crc) && data[..] == old(data[..])
      ensures rc == 0 ==> CrcMatches() && Written(old(data[..]), data[..], Deleted(vars, name), name, vals)
      ensures rc == 0 ==> if Fits(Deleted(vars, name), name, vals, size)
                          then Holds(Deleted(vars, name) + [Var(name, Joined(vals))])
                          && Behind(old(data[..]), data[..], size)
                          else forall other :: !Holds(other)
    {
      hide Flat, Stored, Tail, Joined, Without, AllOK, Find, Deleted, Crc32.Checksum, Octets;
      ghost var rest := Deleted(vars, name);
      ghost var d := data[..];
      FlatEnd(d, rest);
      var env := FindEnd(rest);
      var len := Length(name, vals);
      if len > size { return 1; }
      Append(env, name, vals);
      Grown(d, data[..], rest, vars, name, vals);
      AppendedEnd(d, data[..], rest, name, vals, size);
      UpdateCrc();
      forall other | !Fits(rest, name, vals, size) ensures !Holds(other) {
        if Holds(other) { OneList(data[..], rest + [Var(name, Joined(vals))], other); }
      }
      rc := 0;
    }

    /** The rate that a new value of `baudrate` asks for.  When there is none the
        null pointer is followed. */
    function Rate(vals: seq<seq<Char>>): nat {
      StrtoulOf(if |vals| > 0 then vals[0] else lowest, 10)
    }

    /** The speed is given in the decimal system; further values do not matter. */
    lemma RateRead(n: nat, more: seq<seq<Char>>)
      ensures Rate([Numeral(n, 10, false)] + more) == n % 0x1_0000_0000
    {
      NumeralRead(n, 10, false, 10);
    }

    /** An existing `baudrate` is given another value or taken away. */
    predicate Switches(vars: seq<Var>, name: seq<Char>) {
      name == BAUDRATE && Find(vars, name) != -1
    }

    /** The variable may not be overwritten, or not with this value. */
    predicate Barred(vars: seq<Var>, name: seq<Char>, vals: seq<seq<Char>>) {
      Protected(vars, name) || (Switches(vars, name) && Rate(vals) !in rates)
    }

    /** Sets the line speed if it is supported. */
    method SwitchBaudrate(vals: seq<seq<Char>>) returns (ok: bool)
      modifies this`baud
      ensures ok <==> Rate(vals) in rates
      ensures baud == if ok then Rate(vals) else old(baud)
    {
      var baudrate := SimpleStrtoul(if |vals| > 0 then vals[0] else lowest, 10);
      var i := 0;
      while i < |rates| && baudrate != rates[i]
        invariant i <= |rates| && baudrate !in rates[..i]
      {
        i := i + 1;
      }
      assert rates[..|rates|] == rates;
      ok := i < |rates|;
      if ok { baud := baudrate; }
    }

    /** _do_setenv: `vals` are the arguments after the name.  The result is 0, or
        1 when nothing is set; then either the variable may not be overwritten
        like this, or it has been deleted for want of room and the checksum is left as it
        was.  A definition that passes the length test but does not fit is
        written over what follows the store, which then holds no list of
        variables. */
    method SetEnv(name: seq<Char>, vals: seq<seq<Char>>, ghost vars: seq<Var>) returns (rc: int)
      requires Holds(vars) && Legal(name, vals) && data.Length >= 2 * size
      modifies data, this`crc, this`baud
      ensures baud == if Switches(vars, name) && Rate(vals) in rates then Rate(vals) else old(baud)
      ensures rc == 0 <==> !Barred(vars, name, vals) && (vals == [] || DefLength(name, vals) <= size)
      ensures rc == 0 ==> CrcMatches()
      ensures rc == 0 && vals == [] ==> Holds(Deleted(vars, name)) && Behind(old(data[..]), data[..], size)
      ensures rc == 0 && vals != [] ==>
                if Fits(Deleted(vars, name), name, vals, size)
                then Holds(Deleted(vars, name) + [Var(name, Joined(vals))]) && Behind(old(data[..]), data[..], size)
                else (forall other :: !Holds(other))
                     && exists d ::
                             Behind(old(data[..]), d, size) && Written(d, data[..], Deleted(vars, name), name, vals)
      ensures rc != 0 ==> crc == old(crc) && Behind(old(data[..]), data[..], size)
                          && if Barred(vars, name, vals) then data[..] == old(data[..])
                             else Holds(Deleted(vars, name))
      ensures rc != 0 && !Barred(vars, name, vals) && |vars| == 1 && Find(vars, name) == 0 && old(CrcMatches()) ==>
                !CrcMatches()
    {
      hide Flat, Stored, Tail, Joined, Without, AllOK, Find, Fits, DefLength, Written, Crc32.Checksum, Octets,
           StrtoulOf;
      NameItself(name);
      FlatEnd(data[..], vars);
      StartOrZero(data[..], vars);
      ghost var d0 := data[..];
      var env, nxt, oldval;
      ghost var k;
      env, nxt, oldval, k := Search(name, vars);
      if oldval >= 0 {
        if name == SERIAL || name == ETHADDR { return 1; }
        if name == BAUDRATE {
          var ok := SwitchBaudrate(vals);
          if !ok { return 1; }
        }
        Delete(env, nxt, vars, k);
        if |vars| == 1 { Outdated(d0, data[..], size, vars); }
      }
      ghost var d := data[..];
      assert Behind(d0, d, size);
      if |vals| == 0 {
        UpdateCrc();
        return 0;
      }
      rc := Define(name, vals, vars);
    }

    /** strlen(name) + 2, and for every argument its length and one more */
    method Length(name: seq<Char>, vals: seq<seq<Char>>) returns (len: nat)
      ensures len == |name| + |Tail(vals)| + 2
    {
      len := |name| + 2;
      var i := 0;
      assert TailOf(vals, 0) == [];
      while i < |vals|
        invariant 0 <= i <= |vals| && len == |name| + |TailOf(vals, i)| + 2
      {
        TailMore(vals, i);
        len := len + |vals[i]| + 1;
        i := i + 1;
      }
    }
  }

  /** Different from some character on, a name and a line do not match. */
  lemma NoMatch(s1: seq<Char>, v: Var, j: nat)
    requires VarOK(v) && NUL !in s1 && j <= |s1| && j <= |v.name| && s1[..j] == v.name[..j]
    requires (if j < |s1| then s1[j] else NUL) != Line(v)[j] && !(j == |s1| && j == |v.name|)
    ensures NameOf(s1) != v.name
  {
    LineChars(v, j);
    NamePrefix(s1);
    hide NameOf;
    assert |NameOf(s1)| == |v.name| ==> |v.name| <= |s1| && (j < |v.name| ==> j < |s1| && NameOf(s1)[j] == s1[j]);
  }

  /** A line begins with a character, the end of the list with a zero. */
  lemma EndOrLine(d: seq<Char>, vars: seq<Var>, k: nat)
    requires Stored(d, vars) && k <= |vars|
    ensures Off(vars, k) < |d| && (d[Off(vars, k)] == NUL <==> k == |vars|)
  {
    OffAll(vars);
    if k < |vars| {
      LineAt(d, vars, k);
      LineChars(vars[k], 0);
      assert d[Off(vars, k)] == d[Off(vars, k)..Off(vars, k + 1)][0];
    }
  }

  lemma ValueAt(d: seq<Char>, vars: seq<Var>, k: nat)
    requires Stored(d, vars) && k < |vars|
    ensures var v := vars[k].value;
            var r := Off(vars, k) + |vars[k].name| + 1;
            r + |v| < |d| && d[r..r + |v|] == v && d[r + |v|] == NUL
  {
    hide Flat, Stored, Off, Line;
    var v := vars[k].value;
    var r := Off(vars, k) + |vars[k].name| + 1;
    LineAt(d, vars, k);
    LineValue(vars[k]);
    FlatEnd(d, vars);
    Within(d, Off(vars, k), Line(vars[k]), |vars[k].name| + 1, |vars[k].name| + 1 + |v|);
    Within(d, Off(vars, k), Line(vars[k]), |vars[k].name| + 1 + |v|, |vars[k].name| + 2 + |v|);
    assert d[r + |v|..r + |v| + 1][0] == d[r + |v|];
  }

  lemma LineValue(v: Var)
    ensures |Line(v)| == |v.name| + |v.value| + 2
    ensures Line(v)[|v.name| + 1..|v.name| + 1 + |v.value|] == v.value
    ensures Line(v)[|v.name| + 1 + |v.value|..|v.name| + 2 + |v.value|] == [NUL]
  {
  }

  lemma Within(d: seq<Char>, a: nat, l: seq<Char>, i: nat, j: nat)
    requires a + |l| <= |d| && d[a..a + |l|] == l && i <= j <= |l|
    ensures d[a + i..a + j] == l[i..j]
  {
    forall x | 0 <= x < j - i ensures d[a + i..a + j][x] == l[i..j][x] { assert d[a..a + |l|][i + x] == d[a + i + x]; }
  }

  /** One character moved down. */
  lemma Moved(d: seq<Char>, e: seq<Char>, e': seq<Char>, env0: nat, nxt0: nat, env: nat, nxt: nat)
    requires |e| == |d| && env0 <= env < nxt && nxt + 1 < |d| && env0 < nxt0 <= nxt
             && e[..env] == d[..env0] + d[nxt0..nxt] && e[env..] == d[env..]
    requires e' == e[env := e[nxt]]
    ensures e'[..env + 1] == d[..env0] + d[nxt0..nxt + 1] && e'[env + 1..] == d[env + 1..]
    ensures e'[env] == d[nxt] && e'[nxt + 1] == d[nxt + 1]
  {
    assert e[nxt] == e[env..][nxt - env] == d[nxt];
    assert e'[nxt + 1] == e[env..][nxt + 1 - env] == d[nxt + 1];
    assert e'[..env + 1] == e[..env] + [d[nxt]];
    assert e'[env + 1..] == e[env..][1..] == d[env..][1..];
  }

  lemma FlatEnd(d: seq<Char>, vars: seq<Var>)
    requires Stored(d, vars)
    ensures |Flat(vars)| < |d| && d[|Flat(vars)|] == NUL && AllOK(vars)
  {
  }

  lemma OffOrder(d: seq<Char>, vars: seq<Var>, k: nat)
    requires Stored(d, vars) && k < |vars|
    ensures Off(vars, k) + 2 <= Off(vars, k + 1) <= |Flat(vars)|
    ensures Off(vars, k + 1) == |Flat(vars)| <==> k + 1 == |vars|
  {
    LineAt(d, vars, k);
    OffAll(vars);
    if k + 1 < |vars| { LineAt(d, vars, k + 1); }
  }

  /** Nothing comes before the first line. */
  lemma FirstLine(d: seq<Char>, vars: seq<Var>, k: nat)
    requires Stored(d, vars) && k < |vars|
    ensures Off(vars, k) == 0 <==> k == 0
  {
    OffAll(vars);
    if k > 0 { LineAt(d, vars, k - 1); }
  }

  /** Which line a position is in. */
  lemma {:induction false} LineOf(d: seq<Char>, vars: seq<Var>, k: nat, x: nat) returns (j: nat)
    requires Stored(d, vars) && k <= |vars| && x < Off(vars, k)
    ensures j < k && Off(vars, j) <= x < Off(vars, j + 1)
    decreases k
  {
    OffAll(vars);
    if Off(vars, k - 1) <= x { j := k - 1; } else { j := LineOf(d, vars, k - 1, x); }
  }

  /** Two zeros in a row are the end. */
  lemma DoubleZero(d: seq<Char>, vars: seq<Var>, x: nat)
    requires Stored(d, vars) && 0 < x <= |Flat(vars)|
    ensures x < |d| && (d[x - 1] == NUL && d[x] == NUL <==> x == |Flat(vars)|)
  {
    hide Flat, Line;
    FlatEnd(d, vars);
    OffAll(vars);
    var j := LineOf(d, vars, |vars|, x - 1);
    LineAt(d, vars, j);
    var i := x - 1 - Off(vars, j);
    LineChars(vars[j], i);
    assert d[x - 1] == d[Off(vars, j)..Off(vars, j + 1)][i];
    EndOrLine(d, vars, j + 1);
    OffOrder(d, vars, j);
    assert x == |Flat(vars)| ==> j + 1 == |vars| by { if x == |Flat(vars)| { OffOrder(d, vars, j); } }
  }

  /** The bytes once a line has been taken out. */
  lemma Shrunk(d: seq<Char>, d': seq<Char>, vars: seq<Var>, k: nat)
    requires Stored(d, vars) && k < |vars| && |d'| == |d|
    requires var a, n := Off(vars, k), |Flat(vars)| - Off(vars, k + 1);
             n >= 0 && a + n < |d| && d'[..a + n] == d[..a] + d[Off(vars, k + 1)..|Flat(vars)|] && d'[a + n] == NUL
             && (|vars| == 1 ==> d'[1] == NUL)
    ensures Stored(d', Without(vars, k)) && |Flat(Without(vars, k))| <= |Flat(vars)|
  {
    hide Flat, AllOK;
    var rest := Without(vars, k);
    LineAt(d, vars, k);
    FlatAppend(vars[..k], vars[k + 1..]);
    assert d[..Off(vars, k)] + d[Off(vars, k + 1)..|Flat(vars)|] == Flat(rest);
    WithoutOK(vars, k);
  }

  lemma WithoutOK(vars: seq<Var>, k: nat)
    requires AllOK(vars) && k < |vars|
    ensures AllOK(Without(vars, k)) && |Without(vars, k)| == |vars| - 1
  {
    var rest := Without(vars, k);
    forall i | 0 <= i < |rest| ensures rest[i] == vars[if i < k then i else i + 1] { WithoutIs(vars, k, i); }
    hide Without;
  }

  const SERIAL: seq<Char> := [0x73, 0x65, 0x72, 0x69, 0x61, 0x6c, 0x23]             // "serial#"
  const ETHADDR: seq<Char> := [0x65, 0x74, 0x68, 0x61, 0x64, 0x64, 0x72]            // "ethaddr"
  const BAUDRATE: seq<Char> := [0x62, 0x61, 0x75, 0x64, 0x72, 0x61, 0x74, 0x65]     // "baudrate"

  /** Variables that can be set only once. */
  predicate Protected(vars: seq<Var>, name: seq<Char>) {
    (name == SERIAL || name == ETHADDR) && Find(vars, name) != -1
  }

  /** The characters of a text. */
  function Chars(text: string): seq<Char>
    requires forall i :: 0 <= i < |text| ==> text[i] < 256 as char
  {
    seq(|text|, i requires 0 <= i < |text| => text[i] as int)
  }

  /** Exactly the serial number and the Ethernet address, once they are there,
      cannot be set again. */
  lemma SetOnce(vars: seq<Var>, name: seq<Char>)
    ensures Protected(vars, name) <==>
              Find(vars, name) != -1 && (name == Chars("serial#") || name == Chars("ethaddr"))
    ensures BAUDRATE == Chars("baudrate")
  {
    assert SERIAL == Chars("serial#");
    assert ETHADDR == Chars("ethaddr");
    assert BAUDRATE == Chars("baudrate");
  }

  /** What follows the name of the first `n` values: `=`, then the values with
      blanks between them. */
  function TailOf(vals: seq<seq<Char>>, n: nat): seq<Char>
    requires n <= |vals|
  {
    if n == 0 then [] else TailOf(vals, n - 1) + [if n == 1 then EQUALS else BLANK] + vals[n - 1]
  }

  function Tail(vals: seq<seq<Char>>): seq<Char> {
    TailOf(vals, |vals|)
  }

  /** The values joined by blanks. */
  function Joined(vals: seq<seq<Char>>): seq<Char> {
    if |vals| == 0 then [] else if |vals| == 1 then vals[0] else Joined(vals[..|vals| - 1]) + [BLANK] + vals[|vals| - 1]
  }

  lemma TailMore(vals: seq<seq<Char>>, n: nat)
    requires n < |vals|
    ensures TailOf(vals, n + 1) == TailOf(vals, n) + [if n == 0 then EQUALS else BLANK] + vals[n]
    ensures |TailOf(vals, n + 1)| <= |Tail(vals)|
    decreases |vals| - n
  {
    if n + 1 < |vals| { TailMore(vals, n + 1); }
  }

  lemma NoTail(vals: seq<seq<Char>>)
    ensures TailOf(vals, 0) == []
  {
  }

  lemma TextMore(text: seq<Char>, vals: seq<seq<Char>>, n: nat)
    requires n < |vals|
    ensures text + TailOf(vals, n) + [if n == 0 then EQUALS else BLANK] + vals[n] == text + TailOf(vals, n + 1)
  {
    TailMore(vals, n);
  }

  lemma {:induction false} TailPrefix(vals: seq<seq<Char>>, more: seq<Char>, n: nat)
    requires n <= |vals|
    ensures TailOf(vals + [more], n) == TailOf(vals, n)
  {
    if n > 0 { TailPrefix(vals, more, n - 1); }
  }

  /** An equals sign and the joined values. */
  lemma {:induction false} TailIs(vals: seq<seq<Char>>)
    requires |vals| > 0
    ensures Tail(vals) == [EQUALS] + Joined(vals)
  {
    var n := |vals|;
    if n == 1 {
      OneValue(vals);
    } else {
      var init := vals[..n - 1];
      assert init + [vals[n - 1]] == vals;
      TailIs(init);
      TailPrefix(init, vals[n - 1], n - 1);
      hide Joined;
      assert Joined(vals) == Joined(init) + [BLANK] + vals[n - 1] by { JoinedMore(vals); }
      assert ([EQUALS] + Joined(init)) + [BLANK] + vals[n - 1] == [EQUALS] + (Joined(init) + [BLANK] + vals[n - 1]);
    }
  }

  lemma OneValue(vals: seq<seq<Char>>)
    requires |vals| == 1
    ensures Tail(vals) == [EQUALS] + Joined(vals)
  {
    assert TailOf(vals, 0) == [];
    assert [] + [EQUALS] + vals[0] == [EQUALS] + vals[0];
  }

  lemma JoinedMore(vals: seq<seq<Char>>)
    requires |vals| > 1
    ensures Joined(vals) == Joined(vals[..|vals| - 1]) + [BLANK] + vals[|vals| - 1]
  {
  }

  lemma {:induction false} JoinedClean(vals: seq<seq<Char>>)
    requires forall i :: 0 <= i < |vals| ==> NUL !in vals[i]
    ensures NUL !in Joined(vals)
  {
    if |vals| > 1 { JoinedClean(vals[..|vals| - 1]); }
  }

  lemma {:induction false} NameItself(name: seq<Char>)
    requires EQUALS !in name
    ensures NameOf(name) == name
  {
    NameIs(name, |name|);
    assert name[..|name|] == name;
  }

  lemma StartOrZero(d: seq<Char>, vars: seq<Var>)
    requires Stored(d, vars)
    ensures |d| >= 2 && (vars == [] ==> |Flat(vars)| == 0 && d[0] == NUL && d[1] == NUL)
    ensures vars != [] ==> |Flat(vars)| >= 2
  {
    if vars != [] {
      OffOrder(d, vars, |vars| - 1);
    }
  }

  /** The bytes once a line has been added. */
  lemma Grown(d: seq<Char>, d': seq<Char>, rest: seq<Var>, vars: seq<Var>, name: seq<Char>, vals: seq<seq<Char>>)
    requires AllOK(vars) && rest == Deleted(vars, name) && Stored(d, rest) && |d'| == |d| && |vals| > 0
    requires NUL !in name && EQUALS !in name && forall i :: 0 <= i < |vals| ==> NUL !in vals[i]
    requires var n := |Flat(rest)|;
             n + |name| + |Tail(vals)| + 1 < |d'|
             && d'[..n + |name| + |Tail(vals)| + 1] == d[..n] + name + Tail(vals) + [NUL]
             && d'[n + |name| + |Tail(vals)| + 1] == NUL
    ensures Stored(d', rest + [Var(name, Joined(vals))])
  {
    hide AllOK, Deleted, Meaning, Find, Tail, Joined, Flat;
    var v := Var(name, Joined(vals));
    TailIs(vals);
    JoinedClean(vals);
    DeletedOK(vars, name);
    AppendedMeaning(rest, v);
    FlatAppend(rest, [v]);
    FlatOne(v);
    assert d[..|Flat(rest)|] == Flat(rest);
    assert Flat(rest) + name + ([EQUALS] + Joined(vals)) + [NUL] == Flat(rest) + Line(v);
  }

  /** The arguments of a call that defines a variable. */
  predicate Legal(name: seq<Char>, vals: seq<seq<Char>>) {
    NUL !in name && EQUALS !in name && forall i :: 0 <= i < |vals| ==> NUL !in vals[i]
  }

  /** The bytes that a definition takes, with the final zero: what the program
      compares with the size of the whole store. */
  function DefLength(name: seq<Char>, vals: seq<seq<Char>>): nat {
    |name| + |Tail(vals)| + 2
  }

  /** What it should be compared with: the last byte lies in the store. */
  predicate Fits(rest: seq<Var>, name: seq<Char>, vals: seq<seq<Char>>, size: nat) {
    |Flat(rest)| + DefLength(name, vals) <= size
  }

  /** Nothing behind the store has changed. */
  predicate Behind(d: seq<Char>, d': seq<Char>, size: nat) {
    |d'| == |d| >= size && d'[size..] == d[size..]
  }

  lemma LaterSame(d: seq<Char>, e: seq<Char>, a: nat)
    requires |d| == |e| && a < |d| && e[a..] == d[a..]
    ensures e[a := NUL][a + 1..] == d[a + 1..]
  {
    assert e[a := NUL][a + 1..] == e[a..][1..] && d[a + 1..] == d[a..][1..];
  }

  lemma StillBehind(d: seq<Char>, d': seq<Char>, a: nat, size: nat)
    requires |d'| == |d| && a <= size <= |d| && d'[a..] == d[a..]
    ensures Behind(d, d', size)
  {
    assert d'[size..] == d'[a..][size - a..] && d[size..] == d[a..][size - a..];
  }

  /** The definition stands after the variables, whatever the store's size, and
      nothing behind it has changed. */
  predicate Written(d: seq<Char>, d': seq<Char>, rest: seq<Var>, name: seq<Char>, vals: seq<seq<Char>>) {
    var n := |Flat(rest)|;
    |d'| == |d| >= n + DefLength(name, vals)
    && d'[..n + DefLength(name, vals)] == Flat(rest) + name + Tail(vals) + [NUL] + [NUL]
    && d'[n + DefLength(name, vals)..] == d[n + DefLength(name, vals)..]
  }

  /** The length test is right about a definition: it lets pass only what fits. */
  predicate TestRight(rest: seq<Var>, name: seq<Char>, vals: seq<seq<Char>>, size: nat) {
    DefLength(name, vals) <= size ==> Fits(rest, name, vals, size)
  }

  /** In a store of at least four bytes the test is right about all new variables
      exactly when there are none yet. */
  lemma TestRightIff(vars: seq<Var>, size: nat)
    requires AllOK(vars) && |Flat(vars)| < size && size >= 4
    ensures (forall name, vals :: Legal(name, vals) && vals != [] && Find(vars, name) == -1 ==>
              TestRight(vars, name, vals, size))
            <==> vars == []
  {
    if vars != [] {
      var name, vals := Passing(vars, size);
      FlatGrows(vars);
      assert Legal(name, vals) && vals != [] && Find(vars, name) == -1 && !TestRight(vars, name, vals, size);
    } else {
      assert Flat(vars) == [];
    }
  }

  /** A definition that fills a store that is empty. */
  lemma Passing(vars: seq<Var>, size: nat) returns (name: seq<Char>, vals: seq<seq<Char>>)
    requires AllOK(vars) && |Flat(vars)| < size && size >= 4
    ensures Legal(name, vals) && vals != [] && Find(vars, name) == -1 && DefLength(name, vals) == size
  {
    FlatLong(vars);
    name := NewName(vars, 0);
    var v: seq<Char> := seq(size - 3 - |name|, (i: nat) => LETTER);
    vals := [v];
    TailIs(vals);
  }

  const LETTER: Char := 0x61

  function Letters(n: nat): (r: seq<Char>)
    ensures |r| == n && forall i :: 0 <= i < n ==> r[i] == LETTER
  {
    seq(n, (i: nat) => LETTER)
  }

  /** One of the names of `n` letters and more is new, and not too long. */
  lemma {:induction false} NewName(vars: seq<Var>, n: nat) returns (name: seq<Char>)
    requires Unique(vars)
    ensures Find(vars, name) == -1 && n <= |name| <= n + |vars| && forall i :: 0 <= i < |name| ==> name[i] == LETTER
    decreases |vars|
  {
    name := Letters(n);
    var k := Find(vars, name);
    if k != -1 {
      RestUnique(vars, k);
      hide Unique, Find, Without;
      name := NewName(Without(vars, k), n + 1);
      StillNew(vars, k, name);
    }
  }

  lemma RestUnique(vars: seq<Var>, k: nat)
    requires Unique(vars) && k < |vars|
    ensures Unique(Without(vars, k)) && |Without(vars, k)| == |vars| - 1
  {
    var rest := Without(vars, k);
    forall i | 0 <= i < |rest| ensures rest[i] == vars[if i < k then i else i + 1] { WithoutIs(vars, k, i); }
    hide Without;
  }

  lemma StillNew(vars: seq<Var>, k: nat, name: seq<Char>)
    requires k < |vars| && Find(Without(vars, k), name) == -1 && vars[k].name != name
    ensures Find(vars, name) == -1
  {
    var rest := Without(vars, k);
    forall i | 0 <= i < |vars| ensures vars[i].name != name {
      if i != k { WithoutIs(vars, k, if i < k then i else i - 1); }
    }
    NoSuch(vars, name);
  }

  lemma {:induction false} FlatLong(vars: seq<Var>)
    ensures |Flat(vars)| >= 2 * |vars|
  {
    if |vars| > 0 { FlatLong(vars[..|vars| - 1]); }
  }

  /** Eight bytes, three of which are used: the definition `b=ccc` passes the test
      with seven bytes and ends two bytes behind the store. */
  lemma OverflowExample()
    ensures var d: seq<Char> := [0x61, EQUALS, NUL, NUL, NUL, NUL, NUL, NUL];
            var rest, name, vals := [Var([0x61], [])], [0x62], [[0x63, 0x63, 0x63]];
            Stored(d, rest) && Legal(name, vals) && DefLength(name, vals) <= |d|
            && |Flat(rest)| + DefLength(name, vals) == |d| + 2
  {
    var v := Var([0x61], []);
    FlatOne(v);
    assert Line(v) == [0x61, EQUALS, NUL];
    var vals: seq<seq<Char>> := [[0x63, 0x63, 0x63]];
    TailIs(vals);
  }

  /** The variable a with the arguments b and c is the bytes `a=b c` and two zeros. */
  lemma StoredExample()
    ensures Stored([0x61, 0x3D, 0x62, 0x20, 0x63, 0x00, 0x00], [Var([0x61], Joined([[0x62], [0x63]]))])
  {
    var vals: seq<seq<Char>> := [[0x62], [0x63]];
    assert vals[..1] == [[0x62]];
    assert Joined(vals) == [0x62, 0x20, 0x63];
    var v := Var([0x61], Joined(vals));
    FlatOne(v);
    assert Line(v) == [0x61, 0x3D, 0x62, 0x20, 0x63, 0x00];
    var d: seq<Char> := [0x61, 0x3D, 0x62, 0x20, 0x63, 0x00, 0x00];
    assert d[..6] == Line(v);
  }

  lemma AppendedEnd(d: seq<Char>, d': seq<Char>, rest: seq<Var>, name: seq<Char>, vals: seq<seq<Char>>, size: nat)
    requires Stored(d, rest) && |d'| == |d| && vals != [] && size <= |d|
    requires var n := |Flat(rest)|;
             n + DefLength(name, vals) <= |d'|
             && d'[..n + |name| + |Tail(vals)| + 1] == d[..n] + name + Tail(vals) + [NUL]
             && d'[n + |name| + |Tail(vals)| + 1] == NUL
             && d'[n + DefLength(name, vals)..] == d[n + DefLength(name, vals)..]
    ensures Written(d, d', rest, name, vals)
    ensures |Flat(rest + [Var(name, Joined(vals))])| == |Flat(rest)| + DefLength(name, vals) - 1
    ensures Fits(rest, name, vals, size) ==> Behind(d, d', size)
  {
    hide Tail, Joined, AllOK;
    var v := Var(name, Joined(vals));
    var e := |Flat(rest)| + DefLength(name, vals);
    TailIs(vals);
    FlatAppend(rest, [v]);
    FlatOne(v);
    hide Flat;
    assert d'[..e] == d'[..e - 1] + [NUL];
    if e <= size {
      assert d'[size..] == d'[e..][size - e..];
      assert d[size..] == d[e..][size - e..];
    }
  }

  /** The bytes hold one list of variables only. */
  lemma OneList(d: seq<Char>, vars: seq<Var>, other: seq<Var>)
    requires Stored(d, vars) && Stored(d, other)
    ensures vars == other
  {
    hide Flat, Stored;
    OffAll(vars);
    OffAll(other);
    SameFrom(d, vars, other, 0);
  }

  lemma {:induction false} SameFrom(d: seq<Char>, vars: seq<Var>, other: seq<Var>, k: nat)
    requires Stored(d, vars) && Stored(d, other) && k <= |vars| && k <= |other| && Off(vars, k) == Off(other, k)
    ensures |vars| == |other| && vars[k..] == other[k..]
    decreases |vars| - k
  {
    hide Flat, Stored, Off, Line;
    EndOrLine(d, vars, k);
    EndOrLine(d, other, k);
    if k < |vars| {
      LineAt(d, vars, k);
      LineAt(d, other, k);
      FlatEnd(d, vars);
      FlatEnd(d, other);
      SameLine(d, Off(vars, k), vars[k], other[k]);
      SameFrom(d, vars, other, k + 1);
      assert vars[k..] == [vars[k]] + vars[k + 1..] && other[k..] == [other[k]] + other[k + 1..];
    }
  }

  /** A line ends at its first zero, and its name at the first equals sign. */
  lemma SameLine(d: seq<Char>, at: nat, v: Var, w: Var)
    requires VarOK(v) && VarOK(w) && at + |Line(v)| <= |d| && at + |Line(w)| <= |d|
    requires d[at..at + |Line(v)|] == Line(v) && d[at..at + |Line(w)|] == Line(w)
    ensures v == w
  {
    hide Line;
    Shared(d, at, v, w);
    Shared(d, at, w, v);
    assert |Line(v)| == |Line(w)|;
    LineSame(v, w);
  }

  lemma Shared(d: seq<Char>, at: nat, v: Var, w: Var)
    requires VarOK(v) && VarOK(w) && at + |Line(v)| <= |d| && at + |Line(w)| <= |d|
    requires d[at..at + |Line(v)|] == Line(v) && d[at..at + |Line(w)|] == Line(w)
    ensures |Line(v)| >= |Line(w)|
  {
    LineSize(v);
    LineSize(w);
    hide Line;
    var n := |Line(v)| - 1;
    if |Line(v)| < |Line(w)| {
      assert d[at + n] == d[at..at + |Line(v)|][n] && d[at + n] == d[at..at + |Line(w)|][n];
      LineChars(v, n);
      LineChars(w, n);
    }
  }

  lemma LineSize(v: Var)
    ensures |Line(v)| == |v.name| + |v.value| + 2
  {
  }

  lemma LineSame(v: Var, w: Var)
    requires VarOK(v) && VarOK(w) && Line(v) == Line(w)
    ensures v == w
  {
    LineSize(v);
    LineSize(w);
    LineChars(v, |v.name|);
    LineChars(w, |v.name|);
    LineChars(v, |w.name|);
    LineChars(w, |w.name|);
    LineParts(v);
    LineParts(w);
  }

  lemma LineParts(v: Var)
    ensures Line(v)[..|v.name|] == v.name && Line(v)[|v.name| + 1..|v.name| + 1 + |v.value|] == v.value
  {
  }

  lemma StartsWithLine(d: seq<Char>, vars: seq<Var>)
    requires Stored(d, vars) && |d| >= 2
    ensures d[0] == NUL <==> vars == []
  {
    OffAll(vars);
    EndOrLine(d, vars, 0);
  }

  /** Deleting the only variable changes the checksum. */
  lemma Outdated(d: seq<Char>, d': seq<Char>, size: nat, vars: seq<Var>)
    requires Stored(d, vars) && |vars| == 1 && 2 <= size <= |d| && d' == d[0 := NUL][1 := NUL]
    ensures Crc32.Checksum(0, Octets(d[..size])) != Crc32.Checksum(0, Octets(d'[..size]))
  {
    hide Flat, Stored, Crc32.Checksum;
    StartsWithLine(d, vars);
    var a, b := Octets(d[..size]), Octets(d'[..size]);
    OctetOf(d[0]);
    assert a[0] != b[0];
    Crc32.FourBytesDetected(0, a, b, 0);
  }

  lemma OctetOf(c: Char)
    requires c != NUL
    ensures ToOctet(c) != ToOctet(NUL)
  {
    OctetNonzero(c);
    assert ToOctet(NUL) == 0;
  }

  lemma OctetNonzero(c: Char)
    requires c != 0
    ensures c as bv32 != 0
  {
  }

  lemma FlatGrows(vars: seq<Var>)
    requires vars != []
    ensures |Flat(vars)| >= 2
  {
  }

  /** _do_setenv as an operation on the map: the name gets the joined values, or
      is removed; every other name keeps its value. */
  lemma SetMeaning(vars: seq<Var>, name: seq<Char>, vals: seq<seq<Char>>)
    requires AllOK(vars) && NUL !in name && EQUALS !in name && forall i :: 0 <= i < |vals| ==> NUL !in vals[i]
    ensures vals == [] ==> Meaning(Deleted(vars, name)) == Meaning(vars) - {name}
    ensures vals != [] ==>
              Meaning(Deleted(vars, name) + [Var(name, Joined(vals))]) == Meaning(vars)[name := Joined(vals)]
  {
    hide Meaning, Deleted, Joined, AllOK, Find, Tail;
    DeletedMeaning(vars, name);
    if vals != [] {
      JoinedClean(vals);
      DeletedOK(vars, name);
      AppendedMeaning(Deleted(vars, name), Var(name, Joined(vals)));
      assert (Meaning(vars) - {name})[name := Joined(vals)] == Meaning(vars)[name := Joined(vals)];
    }
  }
}
