// The environment as a list of variables, and that list as it is packed into
// the environment's bytes.
module EnvSpec {
  type Char = n: nat | n < 256

  const NUL: Char := 0
  const EQUALS: Char := 0x3d
  const BLANK: Char := 0x20

  datatype Var = Var(name: seq<Char>, value: seq<Char>)

  predicate VarOK(v: Var) {
    NUL !in v.name && NUL !in v.value && EQUALS !in v.name
  }

  /** `name=value` and the terminating zero */
  function Line(v: Var): seq<Char> {
    v.name + [EQUALS] + v.value + [NUL]
  }

  function Flat(vars: seq<Var>): seq<Char> {
    if |vars| == 0 then [] else Flat(vars[..|vars| - 1]) + Line(vars[|vars| - 1])
  }

  /** Where the `k`-th line begins. */
  function Off(vars: seq<Var>, k: nat): nat
    requires k <= |vars|
  {
    |Flat(vars[..k])|
  }

  predicate Unique(vars: seq<Var>) {
    forall i, j :: 0 <= i < j < |vars| ==> vars[i].name != vars[j].name
  }

  predicate AllOK(vars: seq<Var>) {
    Unique(vars) && forall i :: 0 <= i < |vars| ==> VarOK(vars[i])
  }

  /** The bytes `d` hold the variables: the lines one after the other, and a
      second zero at the end. */
  predicate Stored(d: seq<Char>, vars: seq<Var>) {
    AllOK(vars) && |d| >= 2 && |Flat(vars)| < |d| && d[..|Flat(vars)|] == Flat(vars) && d[|Flat(vars)|] == NUL
    && (|vars| == 0 ==> d[1] == NUL)
  }

  // ---------------------------------------------------------------- as a map

  function Find(vars: seq<Var>, name: seq<Char>): (k: int)
    ensures k == -1 || (0 <= k < |vars| && vars[k].name == name)
    ensures k == -1 ==> forall i :: 0 <= i < |vars| ==> vars[i].name != name
  {
    if |vars| == 0 then -1
    else if vars[|vars| - 1].name == name then |vars| - 1
    else Find(vars[..|vars| - 1], name)
  }

  function Without(vars: seq<Var>, k: nat): seq<Var>
    requires k < |vars|
  {
    vars[..k] + vars[k + 1..]
  }

  function Deleted(vars: seq<Var>, name: seq<Char>): seq<Var> {
    var k := Find(vars, name);
    if k == -1 then vars else Without(vars, k)
  }

  /** What the variables mean: names and their values. */
  function Meaning(vars: seq<Var>): map<seq<Char>, seq<Char>> {
    map n | n in (set i | 0 <= i < |vars| :: vars[i].name) :: vars[Find(vars, n)].value
  }

  lemma FindUnique(vars: seq<Var>, k: nat)
    requires Unique(vars) && k < |vars|
    ensures Find(vars, vars[k].name) == k
  {
    var j := Find(vars, vars[k].name);
    assert j != -1 && vars[j].name == vars[k].name;
  }

  lemma MeaningIs(vars: seq<Var>, name: seq<Char>)
    ensures name in Meaning(vars) <==> Find(vars, name) != -1
    ensures name in Meaning(vars) ==> Meaning(vars)[name] == vars[Find(vars, name)].value
  {
    if Find(vars, name) != -1 { assert vars[Find(vars, name)].name in (set i | 0 <= i < |vars| :: vars[i].name); }
  }

  lemma WithoutIs(vars: seq<Var>, k: nat, i: nat)
    requires k < |vars| && i < |vars| - 1
    ensures Without(vars, k)[i] == vars[if i < k then i else i + 1]
  {
  }

  lemma DeletedOK(vars: seq<Var>, name: seq<Char>)
    requires AllOK(vars)
    ensures AllOK(Deleted(vars, name)) && Find(Deleted(vars, name), name) == -1
  {
    var k, rest := Find(vars, name), Deleted(vars, name);
    if k != -1 {
      forall i | 0 <= i < |rest| ensures rest[i] == vars[if i < k then i else i + 1] { WithoutIs(vars, k, i); }
      hide Find, Without;
      forall i, j | 0 <= i < j < |rest| ensures rest[i].name != rest[j].name { }
      forall i | 0 <= i < |rest| ensures rest[i].name != name {
        assert vars[k].name == name && vars[if i < k then i else i + 1].name != vars[k].name;
      }
      NoSuch(rest, name);
    }
  }

  lemma NoSuch(vars: seq<Var>, name: seq<Char>)
    requires forall i :: 0 <= i < |vars| ==> vars[i].name != name
    ensures Find(vars, name) == -1
  {
  }

  /** Deleting takes one name out of the map. */
  lemma DeletedMeaning(vars: seq<Var>, name: seq<Char>)
    requires AllOK(vars)
    ensures Meaning(Deleted(vars, name)) == Meaning(vars) - {name}
  {
    hide Meaning, Deleted, AllOK;
    var rest := Deleted(vars, name);
    forall n ensures n in Meaning(rest) <==> n in Meaning(vars) && n != name { DeletedFind(vars, name, n); }
    forall n | n in Meaning(rest) ensures Meaning(rest)[n] == Meaning(vars)[n] { DeletedFind(vars, name, n); }
  }

  lemma DeletedFind(vars: seq<Var>, name: seq<Char>, n: seq<Char>)
    requires AllOK(vars)
    ensures var rest := Deleted(vars, name);
            (n in Meaning(rest) <==> n in Meaning(vars) && n != name)
            && (n in Meaning(rest) ==> Meaning(rest)[n] == Meaning(vars)[n])
  {
    var k, rest := Find(vars, name), Deleted(vars, name);
    MeaningIs(vars, n);
    MeaningIs(rest, n);
    DeletedOK(vars, name);
    if k != -1 {
      var j, i := Find(rest, n), Find(vars, n);
      if j != -1 {
        WithoutIs(vars, k, j);
        FindUnique(vars, if j < k then j else j + 1);
      }
      if i != -1 && n != name { WithoutIs(vars, k, if i < k then i else i - 1); }
    }
    hide Meaning, Without;
  }

  /** Appending a variable with a new name sets it in the map. */
  lemma AppendedMeaning(vars: seq<Var>, v: Var)
    requires AllOK(vars) && VarOK(v) && Find(vars, v.name) == -1
    ensures AllOK(vars + [v]) && Meaning(vars + [v]) == Meaning(vars)[v.name := v.value]
  {
    var all := vars + [v];
    forall n ensures (n in Meaning(all) <==> n in Meaning(vars) || n == v.name)
                     && (n in Meaning(all) ==> Meaning(all)[n] == if n == v.name then v.value else Meaning(vars)[n]) {
      AppendedFind(vars, v, n);
    }
    hide Meaning, Find;
  }

  lemma AppendedFind(vars: seq<Var>, v: Var, n: seq<Char>)
    ensures var all := vars + [v];
            (n in Meaning(all) <==> n in Meaning(vars) || n == v.name)
            && (n in Meaning(all) ==> Meaning(all)[n] == if n == v.name then v.value else Meaning(vars)[n])
  {
    var all := vars + [v];
    assert all[..|all| - 1] == vars;
    MeaningIs(all, n);
    MeaningIs(vars, n);
    hide Meaning;
  }

  // ------------------------------------------------------- lines in the bytes

  lemma {:induction false} FlatAppend(a: seq<Var>, b: seq<Var>)
    ensures Flat(a + b) == Flat(a) + Flat(b)
  {
    hide Line;
    if |b| == 0 {
      assert a + b == a;
    } else {
      assert (a + b)[..|a + b| - 1] == a + b[..|b| - 1];
      FlatAppend(a, b[..|b| - 1]);
    }
  }

  lemma FlatOne(v: Var)
    ensures Flat([v]) == Line(v)
  {
    assert [v][..0] == [];
  }

  /** The `k`-th line. */
  lemma LineAt(d: seq<Char>, vars: seq<Var>, k: nat)
    requires Stored(d, vars) && k < |vars|
    ensures Off(vars, k + 1) == Off(vars, k) + |Line(vars[k])| <= |Flat(vars)|
    ensures d[Off(vars, k)..Off(vars, k + 1)] == Line(vars[k])
    ensures d[..Off(vars, k)] == Flat(vars[..k]) && d[Off(vars, k + 1)..|Flat(vars)|] == Flat(vars[k + 1..])
  {
    hide Flat, Line, AllOK;
    FlatOne(vars[k]);
    assert vars[..k + 1] == vars[..k] + [vars[k]] && vars == vars[..k + 1] + vars[k + 1..];
    FlatAppend(vars[..k], [vars[k]]);
    FlatAppend(vars[..k + 1], vars[k + 1..]);
    var a, b := Off(vars, k), Off(vars, k + 1);
    assert d[..b] == d[..|Flat(vars)|][..b] == Flat(vars[..k]) + Line(vars[k]);
    assert d[a..b] == d[..b][a..];
  }

  lemma OffAll(vars: seq<Var>)
    ensures Off(vars, |vars|) == |Flat(vars)| && Off(vars, 0) == 0
  {
    assert vars[..|vars|] == vars && vars[..0] == [];
  }

  /** The character of a line that a position falls on. */
  lemma LineChars(v: Var, j: nat)
    requires VarOK(v) && j < |Line(v)|
    ensures Line(v)[j] == (if j < |v.name| then v.name[j] else if j == |v.name| then EQUALS else if j < |Line(v)| - 1
            then v.value[j - |v.name| - 1] else NUL)
    ensures Line(v)[j] == NUL <==> j == |Line(v)| - 1
    ensures j < |v.name| ==> Line(v)[j] != EQUALS && Line(v)[j] != NUL
  {
  }

  /** The name part of a `name` or `name=value` string. */
  function NameOf(s: seq<Char>): seq<Char> {
    if |s| == 0 || s[0] == EQUALS then [] else [s[0]] + NameOf(s[1..])
  }

  lemma {:induction false} NameIs(s: seq<Char>, j: nat)
    requires j <= |s| && EQUALS !in s[..j] && (j < |s| ==> s[j] == EQUALS)
    ensures NameOf(s) == s[..j]
  {
    if j > 0 {
      assert s[1..][..j - 1] == s[..j][1..];
      NameIs(s[1..], j - 1);
    }
  }

  lemma {:induction false} NamePrefix(s: seq<Char>)
    ensures |NameOf(s)| <= |s| && NameOf(s) == s[..|NameOf(s)|] && EQUALS !in NameOf(s)
    ensures |NameOf(s)| < |s| ==> s[|NameOf(s)|] == EQUALS
  {
    if |s| > 0 && s[0] != EQUALS {
      NamePrefix(s[1..]);
    }
  }
}
