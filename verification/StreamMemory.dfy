// Where on its way a stream needs more table entries than there are: the trees
// of each dynamic block have the same memory to be built in.
module StreamMemory {
  import opened BitStream
  import opened InflateSpec
  import opened BlocksSpec
  import opened DynamicTrees

  /** At the header of a block whose trees do not fit. */
  ghost predicate ShortAt(input: seq<Byte>, memory: nat, s: Stream) {
    s.phase.Dynamic? && HeaderShort(input, s.pos, memory)
  }

  /** On the way that `s` leads, some trees do not fit. */
  ghost predicate Starved(input: seq<Byte>, memory: nat, s: Stream) {
    exists n: nat :: ShortAt(input, memory, StreamRun(input, s, n))
  }

  lemma StarvedStep(input: seq<Byte>, memory: nat, s: Stream)
    ensures Starved(input, memory, s) <==> ShortAt(input, memory, s) || Starved(input, memory, StreamStep(input, s))
  {
    hide StreamStep, ShortAt;
    var t := StreamStep(input, s);
    assert StreamRun(input, s, 0) == s;
    assert StreamRun(input, s, 1) == t;
    if n: nat :| n > 0 && ShortAt(input, memory, StreamRun(input, s, n)) {
      StreamSplit(input, s, 1, n - 1);
    }
    if n: nat :| ShortAt(input, memory, StreamRun(input, t, n)) {
      StreamSplit(input, s, 1, n);
      assert ShortAt(input, memory, StreamRun(input, s, n + 1));
    }
  }

  /** In the first `n` steps all trees fit. */
  ghost predicate Untroubled(input: seq<Byte>, memory: nat, s: Stream, n: nat) {
    forall m: nat :: m < n ==> !ShortAt(input, memory, StreamRun(input, s, m))
  }

  /** The stream leads to `t`, and the trees on the way fit. */
  ghost predicate Affords(input: seq<Byte>, memory: nat, s: Stream, t: Stream) {
    exists n: nat :: StreamRun(input, s, n) == t && Untroubled(input, memory, s, n)
  }

  lemma AffordsStart(input: seq<Byte>, memory: nat, s: Stream)
    ensures Affords(input, memory, s, s)
  {
    assert StreamRun(input, s, 0) == s && Untroubled(input, memory, s, 0);
  }

  lemma AffordsLeads(input: seq<Byte>, memory: nat, s: Stream, t: Stream)
    requires Affords(input, memory, s, t)
    ensures Leads(input, s, t)
  {
  }

  lemma AffordsStep(input: seq<Byte>, memory: nat, s: Stream, t: Stream)
    requires Affords(input, memory, s, t) && !ShortAt(input, memory, t)
    ensures Affords(input, memory, s, StreamStep(input, t))
  {
    hide StreamStep, ShortAt;
    var n: nat :| StreamRun(input, s, n) == t && Untroubled(input, memory, s, n);
    assert StreamRun(input, s, n + 1) == StreamStep(input, t) && Untroubled(input, memory, s, n + 1);
  }

  lemma AffordsTrans(input: seq<Byte>, memory: nat, s: Stream, t: Stream, r: Stream)
    requires Affords(input, memory, s, t) && Affords(input, memory, t, r)
    ensures Affords(input, memory, s, r)
  {
    hide StreamStep, ShortAt;
    var m: nat :| StreamRun(input, s, m) == t && Untroubled(input, memory, s, m);
    var n: nat :| StreamRun(input, t, n) == r && Untroubled(input, memory, t, n);
    StreamSplit(input, s, m, n);
    forall k: nat | k < m + n ensures !ShortAt(input, memory, StreamRun(input, s, k)) {
      if k >= m { StreamSplit(input, s, m, k - m); }
    }
    assert Untroubled(input, memory, s, m + n);
  }

  lemma {:induction false} GoingBefore(c: Codes, input: seq<Byte>, s: State, m: nat, n: nat)
    requires m <= n && Run(c, input, s, n).Going?
    ensures Run(c, input, s, m).Going?
    decreases n
  {
    hide Step;
    if m < n { GoingBefore(c, input, s, m, n - 1); }
  }

  /** Symbols take no trees. */
  lemma ReachesAffords(input: seq<Byte>, memory: nat, c: Codes, last: bool, s: State, t: State)
    requires Reaches(c, input, s, Going(t))
    ensures Affords(input, memory, Stream(Coded(c), last, s.pos, s.hist), Stream(Coded(c), last, t.pos, t.hist))
  {
    hide Step, StreamStep, HeaderShort;
    var n: nat :| Run(c, input, s, n) == Going(t);
    var from := Stream(Coded(c), last, s.pos, s.hist);
    forall m: nat | m < n ensures !ShortAt(input, memory, StreamRun(input, from, m)) {
      GoingBefore(c, input, s, m, n);
      SymbolsLead(input, c, last, s, m);
    }
    SymbolsLead(input, c, last, s, n);
    assert Untroubled(input, memory, from, n);
  }
}
