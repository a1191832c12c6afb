/** The read / compute / compare-and-swap retry loops of rump_atomics.c on one shared 32-bit word, run
    by any number of threads. atomic_cas_32 is one atomic step. */
module Atomics {
  import opened Wrappers
  import opened Bits

  type u32 = x: int | 0 <= x < MODULUS

  type Thread = int

  /** What the word becomes. Increment is Add(1), decrement Add(2^32 - 1), the word that stands for -1. */
  datatype Op = Add(v: u32) | Or(v: u32) | And(v: u32) | Swap(v: u32)

  /** 32-bit arithmetic wraps. */
  function Apply(op: Op, w: u32): u32 {
    match op
    case Add(v) => (w + v) % MODULUS
    case Or(v) =>
      ModulusIsPower();
      OrBelow(w, v, MODULUS);
      BitOr(w, v)
    case And(v) => BitAnd(w, v)
    case Swap(v) => v
  }

  /** `after` is what the operation makes of `before`: the sum less 2^32 if it does not fit; the digits set
      in either, or in both; or the operand itself. */
  ghost predicate Computes(op: Op, before: u32, after: u32) {
    match op
    case Add(v) => after == before + v || (before + v >= MODULUS && after == before + v - MODULUS)
    case Or(v) => forall i: nat :: Digit(after, i) <==> Digit(before, i) || Digit(v, i)
    case And(v) => forall i: nat :: Digit(after, i) <==> Digit(before, i) && Digit(v, i)
    case Swap(v) => after == v
  }

  lemma ApplyComputes(op: Op, w: u32)
    ensures Computes(op, w, Apply(op, w))
  {
    match op
    case Or(v) =>
      forall i: nat
        ensures Digit(Apply(op, w), i) <==> Digit(w, i) || Digit(v, i)
      {
        OrDigits(w, v, i);
      }
    case And(v) =>
      forall i: nat
        ensures Digit(Apply(op, w), i) <==> Digit(w, i) && Digit(v, i)
      {
        AndDigits(w, v, i);
      }
    case _ =>
  }

  /** A committed operation: who, what, the word it replaced and the word it installed. */
  datatype Commit = Commit(thread: Thread, op: Op, before: u32, after: u32)

  /** Where a thread is: idle, about to load, or between load and CAS. `since` is the number of
      commits when the call began, `at` when the word was loaded, `retries` the failed CASes so far. */
  datatype Pc =
    | Idle
    | Start(op: Op, since: nat, retries: nat)
    | Loaded(op: Op, since: nat, retries: nat, seen: u32, at: nat)

  datatype State = State(
    word: u32,
    pc: map<Thread, Pc>,
    commits: seq<Commit>,
    results: map<Thread, (u32, u32)>,   // last call of a thread: word replaced, word installed
    failures: map<Thread, nat>)           // failed CASes of each thread, over all its calls

  function Init(word: u32, threads: set<Thread>): State {
    State(word, map t | t in threads :: Idle, [], map[], map t | t in threads :: 0)
  }

  datatype Action = Call(t: Thread, op: Op) | Load(t: Thread) | Cas(t: Thread)

  /** One step; an action that does not fit the thread's place changes nothing. */
  function Next(s: State, a: Action): State {
    if a.t !in s.pc || a.t !in s.failures then s
    else
      match (a, s.pc[a.t])
      case (Call(t, op), Idle) => s.(pc := s.pc[t := Start(op, |s.commits|, 0)])
      case (Load(t), Start(op, since, retries)) =>
        s.(pc := s.pc[t := Loaded(op, since, retries, s.word, |s.commits|)])
      case (Cas(t), Loaded(op, since, retries, seen, at)) =>
        if s.word == seen then
          var w := Apply(op, seen);
          s.(word := w, pc := s.pc[t := Idle], commits := s.commits + [Commit(t, op, seen, w)],
             results := s.results[t := (seen, w)])
        else
          s.(pc := s.pc[t := Start(op, since, retries + 1)], failures := s.failures[t := s.failures[t] + 1])
      case _ => s
  }

  function Exec(s: State, acts: seq<Action>): State {
    if acts == [] then s else Next(Exec(s, acts[..|acts| - 1]), acts[|acts| - 1])
  }

  // ---- Specification -----------------------------------------------------

  /** The word after applying the operations of the commits one by one. */
  function Replay(w: u32, cs: seq<Commit>): u32 {
    if cs == [] then w else Apply(cs[|cs| - 1].op, Replay(w, cs[..|cs| - 1]))
  }

  /** Each commit replaced what the ones before it left, and installed its operation's result. */
  predicate Sequential(w: u32, cs: seq<Commit>) {
    forall i :: 0 <= i < |cs| ==>
      cs[i].before == Replay(w, cs[..i]) && cs[i].after == Apply(cs[i].op, cs[i].before)
  }

  /** How many of the commits are by threads other than `t`. */
  function Foreign(cs: seq<Commit>, t: Thread): nat {
    if cs == [] then 0 else Foreign(cs[..|cs| - 1], t) + if cs[|cs| - 1].thread != t then 1 else 0
  }

  /** The last commit of `t`, if it has one. */
  function LastOf(cs: seq<Commit>, t: Thread): Option<Commit> {
    if cs == [] then None
    else if cs[|cs| - 1].thread == t then Some(cs[|cs| - 1]) else LastOf(cs[..|cs| - 1], t)
  }

  // ---- Invariant ---------------------------------------------------------

  predicate Linear(w0: u32, s: State) {
    s.word == Replay(w0, s.commits) && Sequential(w0, s.commits)
  }

  /** A thread between load and CAS holds the word as of its load; its retries are paid for by
      commits of others since its call began. */
  predicate ThreadOk(w0: u32, s: State, t: Thread) {
    t in s.pc ==> t in s.failures && PcOk(w0, s, t, s.pc[t], s.failures[t])
  }

  predicate PcOk(w0: u32, s: State, t: Thread, pc: Pc, failures: nat) {
    match pc
    case Idle => failures <= Foreign(s.commits, t)
    case Start(_, since, retries) =>
      && since <= |s.commits|
      && retries <= Foreign(s.commits, t) - Foreign(s.commits[..since], t)
      && failures <= Foreign(s.commits, t)
    case Loaded(_, since, retries, seen, at) =>
      && since <= at <= |s.commits| && seen == Replay(w0, s.commits[..at])
      && (forall i :: at <= i < |s.commits| ==> s.commits[i].thread != t)
      && retries <= Foreign(s.commits[..at], t) - Foreign(s.commits[..since], t)
      && failures <= Foreign(s.commits[..at], t)
  }

  predicate ResultOk(s: State, t: Thread) {
    match LastOf(s.commits, t)
    case None => t !in s.results
    case Some(c) => t in s.results && s.results[t] == (c.before, c.after)
  }

  ghost predicate Inv(w0: u32, s: State) {
    Linear(w0, s) && forall t :: ThreadOk(w0, s, t) && ResultOk(s, t)
  }

  // ---- Preservation ------------------------------------------------------

  lemma {:induction false} ForeignMonotone(cs: seq<Commit>, i: nat, t: Thread)
    requires i <= |cs|
    ensures Foreign(cs[..i], t) <= Foreign(cs, t)
  {
    if i < |cs| {
      ForeignMonotone(cs[..|cs| - 1], i, t);
      assert cs[..|cs| - 1][..i] == cs[..i];
    } else {
      assert cs[..i] == cs;
    }
  }

  /** Commits by others since a load count in full. */
  lemma {:induction false} ForeignSince(cs: seq<Commit>, at: nat, t: Thread)
    requires at <= |cs| && forall i :: at <= i < |cs| ==> cs[i].thread != t
    ensures Foreign(cs, t) == Foreign(cs[..at], t) + (|cs| - at)
  {
    if at < |cs| {
      ForeignSince(cs[..|cs| - 1], at, t);
      assert cs[..|cs| - 1][..at] == cs[..at];
    } else {
      assert cs[..at] == cs;
    }
  }

  lemma SequentialAppend(w: u32, cs: seq<Commit>, c: Commit)
    requires Sequential(w, cs) && c.before == Replay(w, cs) && c.after == Apply(c.op, c.before)
    ensures Sequential(w, cs + [c]) && Replay(w, cs + [c]) == c.after
  {
    var ds := cs + [c];
    assert ds[..|cs|] == cs;
    forall i | 0 <= i < |ds|
      ensures ds[i].before == Replay(w, ds[..i]) && ds[i].after == Apply(ds[i].op, ds[i].before)
    {
      assert ds[..i] == cs[..i];
    }
  }

  /** Another thread's commit keeps a thread's bookkeeping. */
  lemma OthersCommit(w0: u32, s: State, s': State, t: Thread, c: Commit)
    requires ThreadOk(w0, s, t) && c.thread != t && s'.commits == s.commits + [c]
    requires (t in s.pc <==> t in s'.pc) && (t in s.pc ==> s'.pc[t] == s.pc[t])
    requires (t in s.failures <==> t in s'.failures) && (t in s.failures ==> s'.failures[t] == s.failures[t])
    ensures ThreadOk(w0, s', t)
  {
    var cs, ds := s.commits, s'.commits;
    assert ds[..|cs|] == cs;
    assert Foreign(ds, t) == Foreign(cs, t) + 1;
    if t in s.pc && !s.pc[t].Idle? {
      var since := s.pc[t].since;
      assert ds[..since] == cs[..since];
      if s.pc[t].Loaded? {
        assert ds[..s.pc[t].at] == cs[..s.pc[t].at];
      }
    }
  }

  /** A CAS fails only if another thread has committed since the load. */
  lemma FailureMeansCommit(w0: u32, s: State, t: Thread)
    requires Linear(w0, s) && ThreadOk(w0, s, t) && t in s.pc && s.pc[t].Loaded? && s.word != s.pc[t].seen
    ensures s.pc[t].at < |s.commits|
    ensures forall i :: s.pc[t].at <= i < |s.commits| ==> s.commits[i].thread != t
    ensures Foreign(s.commits, t) > Foreign(s.commits[..s.pc[t].at], t)
  {
    assert s.commits[..|s.commits|] == s.commits;
    ForeignSince(s.commits, s.pc[t].at, t);
  }

  lemma OwnCommit(w0: u32, s: State, s': State, t: Thread, c: Commit)
    requires ThreadOk(w0, s, t) && t in s.pc && s.pc[t].Loaded? && s'.commits == s.commits + [c]
    requires s'.pc == s.pc[t := Idle] && s'.failures == s.failures && c.thread == t
    ensures ThreadOk(w0, s', t)
  {
    ForeignMonotone(s.commits, s.pc[t].at, t);
    assert s'.commits[..|s.commits|] == s.commits;
  }

  lemma ResultsAfterCommit(s: State, s': State, c: Commit, u: Thread)
    requires ResultOk(s, u) && s'.commits == s.commits + [c] && s'.results == s.results[c.thread := (c.before, c.after)]
    ensures ResultOk(s', u)
  {
    assert s'.commits[..|s.commits|] == s.commits;
  }

  lemma CommitStep(w0: u32, s: State, t: Thread)
    requires Inv(w0, s) && t in s.pc && s.pc[t].Loaded? && s.word == s.pc[t].seen
    ensures Inv(w0, Next(s, Cas(t)))
  {
    assert ThreadOk(w0, s, t);
    var s' := Next(s, Cas(t));
    var c := s'.commits[|s.commits|];
    SequentialAppend(w0, s.commits, c);
    assert s'.commits[..|s.commits|] == s.commits;
    forall u
      ensures ThreadOk(w0, s', u) && ResultOk(s', u)
    {
      assert ThreadOk(w0, s, u) && ResultOk(s, u);
      ResultsAfterCommit(s, s', c, u);
      if u != t {
        OthersCommit(w0, s, s', u, c);
      } else {
        OwnCommit(w0, s, s', t, c);
      }
    }
  }

  lemma FailStep(w0: u32, s: State, t: Thread)
    requires Inv(w0, s) && t in s.pc && s.pc[t].Loaded? && s.word != s.pc[t].seen
    ensures Inv(w0, Next(s, Cas(t)))
  {
    assert ThreadOk(w0, s, t);
    FailureMeansCommit(w0, s, t);
    var s' := Next(s, Cas(t));
    forall u
      ensures ThreadOk(w0, s', u) && ResultOk(s', u)
    {
      assert ThreadOk(w0, s, u) && ResultOk(s, u);
    }
  }

  lemma CallStep(w0: u32, s: State, t: Thread, op: Op)
    requires Inv(w0, s) && t in s.pc && t in s.failures && s.pc[t].Idle?
    ensures Inv(w0, Next(s, Call(t, op)))
  {
    var s' := Next(s, Call(t, op));
    assert s.commits[..|s.commits|] == s.commits;
    forall u
      ensures ThreadOk(w0, s', u) && ResultOk(s', u)
    {
      assert ThreadOk(w0, s, u) && ResultOk(s, u);
    }
  }

  lemma LoadStep(w0: u32, s: State, t: Thread)
    requires Inv(w0, s) && t in s.pc && t in s.failures && s.pc[t].Start?
    ensures Inv(w0, Next(s, Load(t)))
  {
    var s' := Next(s, Load(t));
    assert s.commits[..|s.commits|] == s.commits;
    forall u
      ensures ThreadOk(w0, s', u) && ResultOk(s', u)
    {
      assert ThreadOk(w0, s, u) && ResultOk(s, u);
    }
  }

  lemma InvStep(w0: u32, s: State, a: Action)
    requires Inv(w0, s)
    ensures Inv(w0, Next(s, a))
  {
    assert ThreadOk(w0, s, a.t);
    if a.t !in s.pc {
      assert Next(s, a) == s;
    } else if a.Call? && s.pc[a.t].Idle? {
      CallStep(w0, s, a.t, a.op);
    } else if a.Load? && s.pc[a.t].Start? {
      LoadStep(w0, s, a.t);
    } else if a.Cas? && s.pc[a.t].Loaded? {
      if s.word == s.pc[a.t].seen {
        CommitStep(w0, s, a.t);
      } else {
        FailStep(w0, s, a.t);
      }
    }
  }

  lemma {:induction false} RunInv(w0: u32, threads: set<Thread>, acts: seq<Action>)
    ensures Inv(w0, Exec(Init(w0, threads), acts))
  {
    if acts == [] {
      forall t
        ensures ThreadOk(w0, Init(w0, threads), t) && ResultOk(Init(w0, threads), t)
      {
      }
    } else {
      RunInv(w0, threads, acts[..|acts| - 1]);
      InvStep(w0, Exec(Init(w0, threads), acts[..|acts| - 1]), acts[|acts| - 1]);
    }
  }

  // ---- What callers may rely on ------------------------------------------

  /** In every interleaving the word is the initial word with all operations applied in the order of
      their successful CASes, and each thread's last result is what its own commit replaced and
      installed at its place in that order. */
  lemma {:induction false} CasLinearizable(w0: u32, threads: set<Thread>, acts: seq<Action>)
    ensures var s := Exec(Init(w0, threads), acts);
            && s.word == Replay(w0, s.commits)
            && (forall i :: 0 <= i < |s.commits| ==>
                  && s.commits[i].before == Replay(w0, s.commits[..i])
                  && s.commits[i].after == Apply(s.commits[i].op, s.commits[i].before))
            && (forall t :: t in s.results ==>
                  LastOf(s.commits, t).Some?
                  && s.results[t] == (LastOf(s.commits, t).value.before, LastOf(s.commits, t).value.after))
  {
    RunInv(w0, threads, acts);
    var s := Exec(Init(w0, threads), acts);
    forall t | t in s.results
      ensures LastOf(s.commits, t).Some?
              && s.results[t] == (LastOf(s.commits, t).value.before, LastOf(s.commits, t).value.after)
    {
      assert ResultOk(s, t);
    }
  }

  /** Lock-freedom: a thread fails a CAS at most once per commit of another thread, within a call and
      over its whole life; in particular a CAS fails only if another thread committed since the load. */
  lemma {:induction false} RetriesPaidFor(w0: u32, threads: set<Thread>, acts: seq<Action>, t: Thread)
    ensures var s := Exec(Init(w0, threads), acts);
            t in s.pc ==> (
              && t in s.failures && s.failures[t] <= Foreign(s.commits, t)
              && (!s.pc[t].Idle? ==> (
                    && s.pc[t].since <= |s.commits|
                    && s.pc[t].retries <= Foreign(s.commits, t) - Foreign(s.commits[..s.pc[t].since], t)))
              && (s.pc[t].Loaded? && s.word != s.pc[t].seen ==> (
                    && s.pc[t].at < |s.commits|
                    && forall i :: s.pc[t].at <= i < |s.commits| ==> s.commits[i].thread != t)))
  {
    RunInv(w0, threads, acts);
    var s := Exec(Init(w0, threads), acts);
    assert ThreadOk(w0, s, t);
    if t in s.pc && s.pc[t].Loaded? {
      ForeignMonotone(s.commits, s.pc[t].at, t);
      if s.word != s.pc[t].seen {
        FailureMeansCommit(w0, s, t);
      }
    }
  }

  // ---- All threads together ----------------------------------------------

  /** The failed CASes of all the threads. */
  function SumFailures(failures: map<Thread, nat>, ts: seq<Thread>): nat {
    if ts == [] then 0
    else
      var t := ts[|ts| - 1];
      SumFailures(failures, ts[..|ts| - 1]) + if t in failures then failures[t] else 0
  }

  function SumForeign(cs: seq<Commit>, ts: seq<Thread>): nat {
    if ts == [] then 0 else SumForeign(cs, ts[..|ts| - 1]) + Foreign(cs, ts[|ts| - 1])
  }

  /** A commit is foreign to every thread but its own. */
  lemma {:induction false} OneMoreCommit(cs: seq<Commit>, ts: seq<Thread>)
    requires cs != [] && Distinct(ts)
    ensures SumForeign(cs, ts) ==
            SumForeign(cs[..|cs| - 1], ts) + |ts| - if cs[|cs| - 1].thread in ts then 1 else 0
  {
    if ts != [] {
      var front, last := ts[..|ts| - 1], ts[|ts| - 1];
      OneMoreCommit(cs, front);
      assert last !in front;
      assert ts == front + [last];
    }
  }

  lemma {:induction false} ForeignTotal(cs: seq<Commit>, ts: seq<Thread>)
    requires Distinct(ts) && forall i :: 0 <= i < |cs| ==> cs[i].thread in ts
    ensures SumForeign(cs, ts) == (|ts| - 1) * |cs|
  {
    if cs == [] {
      ForeignOfNone(ts);
    } else {
      var k, n := |ts| - 1, |cs| - 1;
      OneMoreCommit(cs, ts);
      ForeignTotal(cs[..n], ts);
      assert k * (n + 1) == k * n + k;
    }
  }

  lemma {:induction false} ForeignOfNone(ts: seq<Thread>)
    ensures SumForeign([], ts) == 0
  {
    if ts != [] {
      ForeignOfNone(ts[..|ts| - 1]);
    }
  }

  lemma {:induction false} SumBounded(failures: map<Thread, nat>, cs: seq<Commit>, ts: seq<Thread>)
    requires forall t :: t in ts && t in failures ==> failures[t] <= Foreign(cs, t)
    ensures SumFailures(failures, ts) <= SumForeign(cs, ts)
  {
    if ts != [] {
      SumBounded(failures, cs, ts[..|ts| - 1]);
    }
  }

  lemma {:induction false} Committers(w0: u32, threads: set<Thread>, acts: seq<Action>)
    ensures var s := Exec(Init(w0, threads), acts);
            s.pc.Keys == threads && forall i :: 0 <= i < |s.commits| ==> s.commits[i].thread in threads
  {
    if acts != [] {
      Committers(w0, threads, acts[..|acts| - 1]);
    }
  }

  /** Over all threads: at most one failed CAS per commit and other thread. */
  lemma {:induction false} TotalRetries(w0: u32, ts: seq<Thread>, acts: seq<Action>)
    requires Distinct(ts)
    ensures var s := Exec(Init(w0, SetOf(ts)), acts);
            SumFailures(s.failures, ts) <= (|ts| - 1) * |s.commits|
  {
    var s := Exec(Init(w0, SetOf(ts)), acts);
    Committers(w0, SetOf(ts), acts);
    forall t | t in ts && t in s.failures
      ensures s.failures[t] <= Foreign(s.commits, t)
    {
      RetriesPaidFor(w0, SetOf(ts), acts, t);
    }
    SumBounded(s.failures, s.commits, ts);
    ForeignTotal(s.commits, ts);
  }

  // ---- The loop of one caller --------------------------------------------

  class Word {
    var value: u32

    constructor (value: u32)
      ensures this.value == value
    {
      this.value := value;
    }
  }

  /** The word after the operations in turn. */
  function ApplyAll(ops: seq<Op>, w: u32): u32 {
    if ops == [] then w else Apply(ops[|ops| - 1], ApplyAll(ops[..|ops| - 1], w))
  }

  /** Operations of other threads taking effect. */
  method Interfere(c: Word, ops: seq<Op>)
    modifies c
    ensures c.value == ApplyAll(ops, old(c.value))
  {
    for i := 0 to |ops|
      invariant c.value == ApplyAll(ops[..i], old(c.value))
    {
      assert ops[..i + 1][..i] == ops[..i];
      c.value := Apply(ops[i], c.value);
    }
    assert ops[..|ops|] == ops;
  }

  /** What the others do in one turn of the loop: before its load, and between its load and its CAS. */
  datatype Turn = Turn(early: seq<Op>, late: seq<Op>)

  /** The word when turn `i` begins, if no earlier turn has committed. */
  function Begins(w: u32, turns: seq<Turn>, i: nat): u32
    requires i <= |turns|
    decreases i, 0
  {
    if i == 0 then w else ApplyAll(turns[i - 1].late, Loads(w, turns, i - 1))
  }

  /** The word that turn `i` loads; after the last of `turns` nobody interferes any more. */
  function Loads(w: u32, turns: seq<Turn>, i: nat): u32
    requires i <= |turns|
    decreases i, 1
  {
    if i == |turns| then Begins(w, turns, i) else ApplyAll(turns[i].early, Begins(w, turns, i))
  }

  /** The retry loop itself, in the company of others that act as `turns` says. It installs its operation
      on the word it loaded in its last turn, which is also the word its CAS finds, having failed in just
      those turns in which the others changed the word between load and CAS. */
  method AtomicUpdate(c: Word, op: Op, turns: seq<Turn>) returns (before: u32, after: u32, retries: nat)
    modifies c
    ensures retries <= |turns| && before == Loads(old(c.value), turns, retries)
    ensures after == Apply(op, before) && Computes(op, before, after) && c.value == after
    ensures forall j :: 0 <= j < retries ==> Begins(old(c.value), turns, j + 1) != Loads(old(c.value), turns, j)
    ensures retries < |turns| ==> Begins(old(c.value), turns, retries + 1) == before
  {
    ghost var w := c.value;
    retries := 0;
    while true
      invariant retries <= |turns| && c.value == Begins(w, turns, retries)
      invariant forall j :: 0 <= j < retries ==> Begins(w, turns, j + 1) != Loads(w, turns, j)
      decreases |turns| - retries
    {
      if retries < |turns| {
        Interfere(c, turns[retries].early);
      }
      before := c.value;
      after := Apply(op, before);
      ApplyComputes(op, before);
      if retries < |turns| {
        Interfere(c, turns[retries].late);
      }
      if c.value == before {
        c.value := after;
        return;
      }
      retries := retries + 1;
    }
  }
}
