/** What the atomic operations compute, as arithmetic and digit by digit, and what any number of threads
    compute together. */
module AtomicLaws {
  import opened Wrappers
  import opened Bits
  import opened Atomics

  // ---- Single operations -------------------------------------------------

  /** That says what the operation does: no two words satisfy it. */
  lemma ComputesOnce(op: Op, w: u32, x: u32, y: u32)
    requires Computes(op, w, x) && Computes(op, w, y)
    ensures x == y
  {
    if op.Or? || op.And? {
      DigitsDetermine(x, y);
    }
  }

  /** Adding the word for -1 takes one away, and wraps at zero. */
  lemma Decrement(w: u32)
    ensures Apply(Add(MODULUS - 1), w) == if w == 0 then MODULUS - 1 else w - 1
  {
  }

  /** In every run, each commit did what its operation says to the word that the one before it left, and
      the word is what the last one left. */
  lemma {:induction false} CommitsCompute(w0: u32, threads: set<Thread>, acts: seq<Action>, i: nat)
    requires i < |Exec(Init(w0, threads), acts).commits|
    ensures var s := Exec(Init(w0, threads), acts);
            && Computes(s.commits[i].op, s.commits[i].before, s.commits[i].after)
            && s.commits[i].before == (if i == 0 then w0 else s.commits[i - 1].after)
            && s.word == s.commits[|s.commits| - 1].after
  {
    var s := Exec(Init(w0, threads), acts);
    CasLinearizable(w0, threads, acts);
    ApplyComputes(s.commits[i].op, s.commits[i].before);
    ChainOf(w0, s.commits, i);
    ChainOf(w0, s.commits, |s.commits|);
    assert s.commits[..|s.commits|] == s.commits;
  }

  lemma ChainOf(w0: u32, cs: seq<Commit>, i: nat)
    requires Sequential(w0, cs) && i <= |cs|
    ensures Replay(w0, cs[..i]) == if i == 0 then w0 else cs[i - 1].after
  {
    if i > 0 {
      assert cs[..i][..i - 1] == cs[..i - 1];
    }
  }

  // ---- Many threads together ---------------------------------------------

  function SumOf(cs: seq<Commit>): nat {
    if cs == [] then 0 else SumOf(cs[..|cs| - 1]) + cs[|cs| - 1].op.v
  }

  /** The word a number becomes. */
  function Wrap(x: nat): u32 {
    x % MODULUS
  }

  lemma AddWraps(a: nat, b: nat)
    ensures (Wrap(a) + b) % MODULUS == Wrap(a + b)
  {
  }

  lemma {:induction false} ReplayAdds(w: u32, cs: seq<Commit>)
    requires forall i :: 0 <= i < |cs| ==> cs[i].op.Add?
    ensures Replay(w, cs) == Wrap(w + SumOf(cs))
  {
    if cs != [] {
      ReplayAdds(w, cs[..|cs| - 1]);
      AddWraps(w + SumOf(cs[..|cs| - 1]), cs[|cs| - 1].op.v);
    }
  }

  lemma {:induction false} ReplayOrs(w: u32, cs: seq<Commit>, d: nat)
    requires forall i :: 0 <= i < |cs| ==> cs[i].op.Or?
    ensures Digit(Replay(w, cs), d) <==> Digit(w, d) || exists i :: 0 <= i < |cs| && Digit(cs[i].op.v, d)
  {
    if cs != [] {
      var front, last := cs[..|cs| - 1], cs[|cs| - 1];
      ReplayOrs(w, front, d);
      OrDigits(Replay(w, front), last.op.v, d);
      assert forall i :: 0 <= i < |front| ==> front[i] == cs[i];
    }
  }

  lemma {:induction false} ReplayAnds(w: u32, cs: seq<Commit>, d: nat)
    requires forall i :: 0 <= i < |cs| ==> cs[i].op.And?
    ensures Digit(Replay(w, cs), d) <==> Digit(w, d) && forall i :: 0 <= i < |cs| ==> Digit(cs[i].op.v, d)
  {
    if cs != [] {
      var front, last := cs[..|cs| - 1], cs[|cs| - 1];
      ReplayAnds(w, front, d);
      AndDigits(Replay(w, front), last.op.v, d);
      assert forall i :: 0 <= i < |front| ==> front[i] == cs[i];
    }
  }

  lemma WordIsReplay(w0: u32, threads: set<Thread>, acts: seq<Action>)
    ensures Exec(Init(w0, threads), acts).word == Replay(w0, Exec(Init(w0, threads), acts).commits)
  {
    CasLinearizable(w0, threads, acts);
  }

  /** A counter counts: if the threads only add, the word is the initial word plus all operands, modulo
      2^32, whatever the interleaving. */
  lemma {:induction false} CounterLaw(w0: u32, threads: set<Thread>, acts: seq<Action>)
    ensures var s := Exec(Init(w0, threads), acts);
            (forall i :: 0 <= i < |s.commits| ==> s.commits[i].op.Add?) ==> s.word == Wrap(w0 + SumOf(s.commits))
  {
    WordIsReplay(w0, threads, acts);
    var s := Exec(Init(w0, threads), acts);
    if forall i :: 0 <= i < |s.commits| ==> s.commits[i].op.Add? {
      ReplayAdds(w0, s.commits);
    }
  }

  /** If the threads only set digits, the word has just those that it had and that someone set; if they only
      mask, just those that it had and that nobody cleared. */
  lemma {:induction false} FlagsLaw(w0: u32, threads: set<Thread>, acts: seq<Action>, d: nat)
    ensures var s := Exec(Init(w0, threads), acts);
            && ((forall i :: 0 <= i < |s.commits| ==> s.commits[i].op.Or?) ==>
                  (Digit(s.word, d) <==>
                     Digit(w0, d) || exists i :: 0 <= i < |s.commits| && Digit(s.commits[i].op.v, d)))
            && ((forall i :: 0 <= i < |s.commits| ==> s.commits[i].op.And?) ==>
                  (Digit(s.word, d) <==>
                     Digit(w0, d) && forall i :: 0 <= i < |s.commits| ==> Digit(s.commits[i].op.v, d)))
  {
    WordIsReplay(w0, threads, acts);
    var s := Exec(Init(w0, threads), acts);
    if forall i :: 0 <= i < |s.commits| ==> s.commits[i].op.Or? {
      ReplayOrs(w0, s.commits, d);
    }
    if forall i :: 0 <= i < |s.commits| ==> s.commits[i].op.And? {
      ReplayAnds(w0, s.commits, d);
    }
  }

  // ---- Progress ----------------------------------------------------------

  /** An idle thread can call, and left alone for one turn of its loop it commits. */
  lemma {:induction false} AloneCommits(w0: u32, threads: set<Thread>, acts: seq<Action>, t: Thread, op: Op)
    requires var s := Exec(Init(w0, threads), acts); t in s.pc && s.pc[t].Idle?
    ensures var s := Exec(Init(w0, threads), acts);
            var s' := Exec(Init(w0, threads), acts + [Call(t, op)] + [Load(t)] + [Cas(t)]);
            && s'.commits == s.commits + [Commit(t, op, s.word, s'.word)] && Computes(op, s.word, s'.word)
            && t in s'.results && s'.results[t] == (s.word, s'.word) && t in s'.pc && s'.pc[t].Idle?
  {
    var init := Init(w0, threads);
    RunInv(w0, threads, acts);
    assert ThreadOk(w0, Exec(init, acts), t);
    Snoc(init, acts, Call(t, op));
    Snoc(init, acts + [Call(t, op)], Load(t));
    Snoc(init, acts + [Call(t, op)] + [Load(t)], Cas(t));
    ApplyComputes(op, Exec(init, acts).word);
  }

  lemma Snoc(s: State, acts: seq<Action>, a: Action)
    ensures Exec(s, acts + [a]) == Next(Exec(s, acts), a)
  {
    assert (acts + [a])[..|acts|] == acts;
  }
}
