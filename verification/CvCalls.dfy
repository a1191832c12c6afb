/** What a whole signal, broadcast or wait does, whatever other tasks do meanwhile. */
module CvCalls {
  import opened Wrappers
  import opened CvProtocol

  // ---- A locked section belongs to its holder ----------------------------

  /** While `u` holds the guard of `c`, no step of another task touches that ring or its history. */
  lemma OthersLeaveRing(s: State, a: Action, u: Task, c: nat)
    requires Shape(s) && LocksHeld(s, u) && LocksHeld(s, a.t) && a.t != u && c < |s.rings|
    requires u in s.pc && HoldsGuard(s.pc[u]) && s.pc[u].c == c
    ensures var s' := Next(s, a);
            && |s'.rings| == |s.rings| && s'.rings[c] == s.rings[c] && Shape(s') && s'.pops[c] == s.pops[c]
            && u in s'.pc && s'.pc[u] == s.pc[u]
  {
    assert s.guards[c] == Some(u);
    if Enabled(s, a) && a.Go? {
      var d := s.pc[a.t].c;
      assert s.guards[d] == Some(a.t) <==> HoldsGuard(s.pc[a.t]);
      OthersEffect(s, a.t, c);
    }
  }

  /** A step on another condition variable, or one that does not touch its ring. */
  lemma OthersEffect(s: State, t: Task, c: nat)
    requires Enabled(s, Go(t)) && c < |s.rings| && (HoldsGuard(s.pc[t]) ==> s.pc[t].c != c)
    ensures Effect(s, t).rings[c] == s.rings[c] && Effect(s, t).pops[c] == s.pops[c]
  {
  }

  /** `n` steps of `more` after `acts`. */
  function AfterSome(init: State, acts: seq<Action>, more: seq<Action>, n: nat): State
    requires n <= |more|
  {
    Exec(init, acts + more[..n])
  }

  lemma OneMoreStep(init: State, acts: seq<Action>, more: seq<Action>, n: nat)
    requires n < |more|
    ensures AfterSome(init, acts, more, n + 1) == Next(AfterSome(init, acts, more, n), more[n])
  {
    assert acts + more[..n + 1] == acts + more[..n] + [more[n]];
    ExecSnoc(init, acts + more[..n], more[n]);
  }

  lemma FrontOfRun(acts: seq<Action>, more: seq<Action>, n: nat)
    requires n <= |more|
    ensures (acts + more)[..|acts| + n] == acts + more[..n]
  {
  }

  lemma InvOf(tasks: set<Task>, cvs: nat, mutexes: nat, all: seq<Action>, n: nat, front: seq<Action>)
    requires Punctual(tasks, cvs, mutexes, all) && n <= |all| && front == all[..n]
    ensures Inv(Exec(Init(tasks, cvs, mutexes), front)) && |Exec(Init(tasks, cvs, mutexes), front).rings| == cvs
  {
    PunctualFront(tasks, cvs, mutexes, all, n);
    RunInv(tasks, cvs, mutexes, front);
  }

  /** Every point of a punctual run satisfies the invariant. */
  lemma InvAt(tasks: set<Task>, cvs: nat, mutexes: nat, acts: seq<Action>, more: seq<Action>, n: nat)
    requires Punctual(tasks, cvs, mutexes, acts + more) && n <= |more|
    ensures Inv(AfterSome(Init(tasks, cvs, mutexes), acts, more, n))
    ensures |AfterSome(Init(tasks, cvs, mutexes), acts, more, n).rings| == cvs
  {
    FrontOfRun(acts, more, n);
    InvOf(tasks, cvs, mutexes, acts + more, |acts| + n, acts + more[..n]);
  }

  // ---- Broadcast ---------------------------------------------------------

  predicate InBroadcast(pc: Pc, c: nat) {
    (pc.BLoop? || pc.BSignal?) && pc.c == c
  }

  /** What was dequeued and what is queued make up what was there at the start; who has left the broadcast
      has left nothing queued. */
  predicate Draining(s: State, u: Task, c: nat, pops: seq<Task>, ring: seq<Task>) {
    && Shape(s) && c < |s.rings| && u in s.pc && s.pops[c] + s.rings[c] == pops + ring
    && (InBroadcast(s.pc[u], c) || (s.pc[u] == Idle && s.rings[c] == []))
  }

  lemma DrainingStep(s: State, a: Action, u: Task, c: nat, pops: seq<Task>, ring: seq<Task>)
    requires Inv(s) && Draining(s, u, c, pops, ring) && InBroadcast(s.pc[u], c)
    ensures Draining(Next(s, a), u, c, pops, ring)
  {
    assert LocksHeld(s, u) && LocksHeld(s, a.t);
    if a.t != u {
      OthersLeaveRing(s, a, u, c);
    } else if Enabled(s, a) && s.pc[u].BLoop? && s.rings[c] != [] {
      MoveOne(s.pops[c], s.rings[c]);
    }
  }

  lemma {:induction false} DrainingRun(tasks: set<Task>, cvs: nat, mutexes: nat, acts: seq<Action>, more: seq<Action>,
                                       n: nat, u: Task, c: nat, pops: seq<Task>, ring: seq<Task>)
    requires Punctual(tasks, cvs, mutexes, acts + more) && n <= |more|
    requires Draining(AfterSome(Init(tasks, cvs, mutexes), acts, more, 0), u, c, pops, ring)
    requires forall k :: 0 <= k < |more| ==> Broadcasting(Init(tasks, cvs, mutexes), acts, more, k, u, c)
    ensures Draining(AfterSome(Init(tasks, cvs, mutexes), acts, more, n), u, c, pops, ring)
  {
    if n > 0 {
      var init := Init(tasks, cvs, mutexes);
      DrainingRun(tasks, cvs, mutexes, acts, more, n - 1, u, c, pops, ring);
      InvAt(tasks, cvs, mutexes, acts, more, n - 1);
      assert Broadcasting(init, acts, more, n - 1, u, c);
      DrainingStep(AfterSome(init, acts, more, n - 1), more[n - 1], u, c, pops, ring);
      OneMoreStep(init, acts, more, n - 1);
    }
  }

  predicate Broadcasting(init: State, acts: seq<Action>, more: seq<Action>, k: nat, u: Task, c: nat)
    requires k <= |more|
  {
    var s := AfterSome(init, acts, more, k);
    u in s.pc && InBroadcast(s.pc[u], c)
  }

  /** A broadcast wakes everybody: from the moment it takes the guard until it returns, whatever happens
      meanwhile, exactly the waiters queued at that moment are dequeued, in that order, and none is left;
      and each of them has been woken since or is about to be. */
  lemma {:induction false} BroadcastWakesAll(tasks: set<Task>, cvs: nat, mutexes: nat, acts: seq<Action>,
                                             more: seq<Action>, u: Task, c: nat)
    requires Punctual(tasks, cvs, mutexes, acts + more)
    requires var s := Exec(Init(tasks, cvs, mutexes), acts);
             Shape(s) && c < |s.rings| && u in s.pc && s.pc[u] == BLoop(c)
    requires forall k :: 0 <= k < |more| ==> Broadcasting(Init(tasks, cvs, mutexes), acts, more, k, u, c)
    requires var s := Exec(Init(tasks, cvs, mutexes), acts + more); u in s.pc && !InBroadcast(s.pc[u], c)
    ensures var s, s' := Exec(Init(tasks, cvs, mutexes), acts), Exec(Init(tasks, cvs, mutexes), acts + more);
            && Shape(s') && c < |s'.rings| && s'.rings[c] == [] && s'.pops[c] == s.pops[c] + s.rings[c]
            && s'.pc[u] == Idle
            && forall w :: w in s.rings[c] ==> multiset(s'.wakes)[w] > multiset(s.wakes)[w] || UnderWay(s', w) == 1
  {
    var init := Init(tasks, cvs, mutexes);
    var s, s' := Exec(init, acts), Exec(init, acts + more);
    assert more[..0] == [] && acts + [] == acts && more[..|more|] == more;
    DrainingRun(tasks, cvs, mutexes, acts, more, |more|, u, c, s.pops[c], s.rings[c]);
    InvAt(tasks, cvs, mutexes, acts, more, 0);
    InvAt(tasks, cvs, mutexes, acts, more, |more|);
    assert s'.pops[c] == s'.pops[c] + s'.rings[c];
    PopsGrow(tasks, cvs, mutexes, acts, more);
    forall w | w in s.rings[c]
      ensures multiset(s'.wakes)[w] > multiset(s.wakes)[w] || UnderWay(s', w) == 1
    {
      WokenOrAbout(s, s', c, w);
    }
  }

  /** Nothing dequeued is ever forgotten. */
  predicate Grown(s: State, s': State) {
    && |s'.pops| == |s.pops| && forall d :: 0 <= d < |s.pops| ==> s.pops[d] <= s'.pops[d]
  }

  lemma GrownStep(s: State, a: Action)
    ensures Grown(s, Next(s, a))
  {
  }

  lemma {:induction false} PopsGrow(tasks: set<Task>, cvs: nat, mutexes: nat, acts: seq<Action>, more: seq<Action>)
    ensures Grown(Exec(Init(tasks, cvs, mutexes), acts), Exec(Init(tasks, cvs, mutexes), acts + more))
  {
    if more == [] {
      assert acts + more == acts;
    } else {
      var n := |more| - 1;
      PopsGrow(tasks, cvs, mutexes, acts, more[..n]);
      assert acts + more == acts + more[..n] + [more[n]];
      ExecSnoc(Init(tasks, cvs, mutexes), acts + more[..n], more[n]);
      GrownStep(Exec(Init(tasks, cvs, mutexes), acts + more[..n]), more[n]);
    }
  }

  lemma CountGrows(p: seq<Task>, q: seq<Task>, w: Task)
    requires p <= q
    ensures multiset(q)[w] == multiset(p)[w] + multiset(q[|p|..])[w]
  {
    assert q == p + q[|p|..];
  }

  lemma {:induction false} TotalGrows(ps: seq<seq<Task>>, qs: seq<seq<Task>>, c: nat, w: Task, extra: seq<Task>)
    requires |qs| == |ps| && c < |ps| && (forall d :: 0 <= d < |ps| ==> ps[d] <= qs[d]) && qs[c] == ps[c] + extra
    ensures Total(qs, w) >= Total(ps, w) + multiset(extra)[w]
  {
    var n := |ps| - 1;
    CountGrows(ps[n], qs[n], w);
    if c < n {
      TotalGrows(ps[..n], qs[..n], c, w, extra);
    } else {
      TotalAtLeast(ps[..n], qs[..n], w);
      assert qs[n][|ps[n]|..] == extra;
    }
  }

  lemma {:induction false} TotalAtLeast(ps: seq<seq<Task>>, qs: seq<seq<Task>>, w: Task)
    requires |qs| == |ps| && forall d :: 0 <= d < |ps| ==> ps[d] <= qs[d]
    ensures Total(qs, w) >= Total(ps, w)
  {
    if ps != [] {
      var n := |ps| - 1;
      TotalAtLeast(ps[..n], qs[..n], w);
      CountGrows(ps[n], qs[n], w);
    }
  }

  /** A waiter that was queued and has been dequeued has been woken, or its signal is under way. */
  lemma WokenOrAbout(s: State, s': State, c: nat, w: Task)
    requires Inv(s) && Inv(s') && Grown(s, s') && c < |s.rings| && w in s.rings[c]
    requires s'.pops[c] == s.pops[c] + s.rings[c]
    ensures multiset(s'.wakes)[w] > multiset(s.wakes)[w] || UnderWay(s', w) == 1
  {
    assert TaskOk(s, w) && TaskOk(s', w);
    TotalCovers(s.rings, c, w);
    assert multiset(s.rings[c])[w] > 0;
    TotalGrows(s.pops, s'.pops, c, w, s.rings[c]);
  }

  // ---- Signal ------------------------------------------------------------

  /** `u` is in the locked section of a signal, or has just left it: it has dequeued the oldest of the
      waiters in `ring`, or nobody if there was none. */
  predicate Picking(s: State, u: Task, c: nat, pops: seq<Task>, ring: seq<Task>) {
    && Shape(s) && c < |s.rings| && u in s.pc
    && match s.pc[u]
       case SPop(d) => d == c && s.pops[c] == pops && s.rings[c] == ring
       case SEmpty(d) => d == c && ring == [] && s.pops[c] == pops && s.rings[c] == []
       case SRelease(d, w) => d == c && ring != [] && w == ring[0] && s.pops[c] == pops + [w] && s.rings[c] == ring[1..]
       case SSignal(d, w) => d == c && ring != [] && w == ring[0] && s.pops[c] == pops + [w] && s.rings[c] == ring[1..]
       case Idle => ring == [] && s.pops[c] == pops && s.rings[c] == []
       case _ => false
  }

  predicate InSignal(pc: Pc, c: nat) {
    (pc.SPop? || pc.SEmpty? || pc.SRelease?) && pc.c == c
  }

  lemma PickingStep(s: State, a: Action, u: Task, c: nat, pops: seq<Task>, ring: seq<Task>)
    requires Inv(s) && Picking(s, u, c, pops, ring) && InSignal(s.pc[u], c)
    ensures Picking(Next(s, a), u, c, pops, ring)
  {
    assert LocksHeld(s, u) && LocksHeld(s, a.t);
    if a.t != u {
      OthersLeaveRing(s, a, u, c);
    }
  }

  predicate Signalling(init: State, acts: seq<Action>, more: seq<Action>, k: nat, u: Task, c: nat)
    requires k <= |more|
  {
    var s := AfterSome(init, acts, more, k);
    u in s.pc && InSignal(s.pc[u], c)
  }

  lemma {:induction false} PickingRun(tasks: set<Task>, cvs: nat, mutexes: nat, acts: seq<Action>, more: seq<Action>,
                                      n: nat, u: Task, c: nat, pops: seq<Task>, ring: seq<Task>)
    requires Punctual(tasks, cvs, mutexes, acts + more) && n <= |more|
    requires Picking(AfterSome(Init(tasks, cvs, mutexes), acts, more, 0), u, c, pops, ring)
    requires forall k :: 0 <= k < |more| ==> Signalling(Init(tasks, cvs, mutexes), acts, more, k, u, c)
    ensures Picking(AfterSome(Init(tasks, cvs, mutexes), acts, more, n), u, c, pops, ring)
  {
    if n > 0 {
      var init := Init(tasks, cvs, mutexes);
      PickingRun(tasks, cvs, mutexes, acts, more, n - 1, u, c, pops, ring);
      InvAt(tasks, cvs, mutexes, acts, more, n - 1);
      assert Signalling(init, acts, more, n - 1, u, c);
      PickingStep(AfterSome(init, acts, more, n - 1), more[n - 1], u, c, pops, ring);
      OneMoreStep(init, acts, more, n - 1);
    }
  }

  /** A signal wakes exactly the oldest waiter: when it drops the guard it has dequeued that one and no
      other, and is about to signal it; or it returns, having found nobody queued. */
  lemma {:induction false} SignalPicksOldest(tasks: set<Task>, cvs: nat, mutexes: nat, acts: seq<Action>,
                                             more: seq<Action>, u: Task, c: nat)
    requires Punctual(tasks, cvs, mutexes, acts + more)
    requires var s := Exec(Init(tasks, cvs, mutexes), acts);
             Shape(s) && c < |s.rings| && u in s.pc && s.pc[u] == SPop(c)
    requires forall k :: 0 <= k < |more| ==> Signalling(Init(tasks, cvs, mutexes), acts, more, k, u, c)
    requires var s := Exec(Init(tasks, cvs, mutexes), acts + more); u in s.pc && !InSignal(s.pc[u], c)
    ensures var s, s' := Exec(Init(tasks, cvs, mutexes), acts), Exec(Init(tasks, cvs, mutexes), acts + more);
            && Shape(s') && c < |s'.rings|
            && (s.rings[c] == [] ==> s'.pc[u] == Idle && s'.pops[c] == s.pops[c] && s'.rings[c] == [])
            && (s.rings[c] != [] ==> (
                  && s'.pc[u] == SSignal(c, s.rings[c][0]) && s'.rings[c] == s.rings[c][1..]
                  && s'.pops[c] == s.pops[c] + [s.rings[c][0]]))
  {
    var init := Init(tasks, cvs, mutexes);
    var s := Exec(init, acts);
    assert more[..0] == [] && acts + [] == acts && more[..|more|] == more;
    PickingRun(tasks, cvs, mutexes, acts, more, |more|, u, c, s.pops[c], s.rings[c]);
  }

  // ---- Wait --------------------------------------------------------------

  /** A wait, timed or not, returns with its mutex held, and only a step of its own makes it return. */
  lemma WaitReturnsLocked(s: State, a: Action, t: Task)
    requires t in s.pc && InWait(s.pc[t]) && Next(s, a).pc[t] == Idle
    ensures a == Go(t) && s.pc[t].x < |Next(s, a).mutexes| && Next(s, a).mutexes[s.pc[t].x] == Some(t)
  {
  }

  // ---- Calls that nobody disturbs ----------------------------------------

  lemma {:induction false} ExecFirst(s: State, a: Action, acts: seq<Action>)
    ensures Exec(s, [a] + acts) == Exec(Next(s, a), acts)
  {
    var all := [a] + acts;
    if acts == [] {
      assert all == [a] && all[..0] == [];
    } else {
      assert all[..|all| - 1] == [a] + acts[..|acts| - 1];
      ExecFirst(s, a, acts[..|acts| - 1]);
    }
  }

  /** The state with the waiters of `c` woken, the rest as it was. */
  predicate AllWoken(s: State, s': State, u: Task, c: nat) {
    && Shape(s) && Shape(s') && c < |s.rings| && u in s.pc && s'.pc == s.pc[u := Idle] && s'.mutexes == s.mutexes
    && s'.rings == s.rings[c := []] && s'.bits == s.bits + SetOf(s.rings[c]) && s'.guards == s.guards[c := None]
  }

  /** From inside the loop of a broadcast, `u` on its own empties the ring and leaves. */
  lemma {:induction false} LoopAlone(s: State, u: Task, c: nat) returns (acts: seq<Action>)
    requires Shape(s) && c < |s.rings| && u in s.pc && s.pc[u] == BLoop(c)
    ensures AllWoken(s, Exec(s, acts), u, c)
    decreases |s.rings[c]|
  {
    var s1 := Next(s, Go(u));
    if s.rings[c] == [] {
      ExecFirst(s, Go(u), []);
      assert s.rings[c := []] == s.rings;
      return [Go(u)];
    }
    var s2 := Next(s1, Go(u));
    TwoTurns(s, u, c);
    acts := LoopAlone(s2, u, c);
    OneWoken(s, s2, Exec(s2, acts), u, c);
    ExecFirst(s1, Go(u), acts);
    ExecFirst(s, Go(u), [Go(u)] + acts);
    acts := [Go(u)] + ([Go(u)] + acts);
  }

  /** One turn of the loop: dequeue and signal. */
  lemma TwoTurns(s: State, u: Task, c: nat)
    requires Shape(s) && c < |s.rings| && u in s.pc && s.pc[u] == BLoop(c) && s.rings[c] != []
    ensures var s2 := Next(Next(s, Go(u)), Go(u));
            && Shape(s2) && s2.pc == s.pc && s2.rings == s.rings[c := s.rings[c][1..]] && s2.guards == s.guards
            && s2.bits == s.bits + {s.rings[c][0]} && s2.mutexes == s.mutexes
  {
    assert Successor(s, u) == BSignal(c, s.rings[c][0]);
    assert Next(s, Go(u)).pc[u] == BSignal(c, s.rings[c][0]);
  }

  lemma OneWoken(s: State, s2: State, s': State, u: Task, c: nat)
    requires Shape(s) && c < |s.rings| && u in s.pc && s.rings[c] != [] && AllWoken(s2, s', u, c)
    requires s2.pc == s.pc && s2.rings == s.rings[c := s.rings[c][1..]] && s2.guards == s.guards
    requires s2.bits == s.bits + {s.rings[c][0]} && s2.mutexes == s.mutexes
    ensures AllWoken(s, s', u, c)
  {
    var r := s.rings[c];
    assert r == [r[0]] + r[1..];
    assert SetOf(r) == {r[0]} + SetOf(r[1..]);
    assert s2.rings[c := []] == s.rings[c := []];
  }

  /** An idle task can broadcast whenever the guard is free: left alone it comes back with every waiter's
      bit set and the ring empty, and nothing else changed. */
  lemma {:induction false} BroadcastAlone(s: State, u: Task, c: nat) returns (acts: seq<Action>)
    requires Shape(s) && c < |s.rings| && u in s.pc && s.pc[u] == Idle && s.guards[c] == None
    ensures AllWoken(s, Exec(s, acts), u, c)
  {
    var s1 := Next(s, CallBroadcast(u, c));
    var s2 := Next(s1, Go(u));
    EntersBroadcast(s, u, c);
    acts := LoopAlone(s2, u, c);
    ExecFirst(s1, Go(u), acts);
    ExecFirst(s, CallBroadcast(u, c), [Go(u)] + acts);
    acts := [CallBroadcast(u, c)] + ([Go(u)] + acts);
  }

  lemma EntersBroadcast(s: State, u: Task, c: nat)
    requires Shape(s) && c < |s.rings| && u in s.pc && s.pc[u] == Idle && s.guards[c] == None
    ensures var s2 := Next(Next(s, CallBroadcast(u, c)), Go(u));
            && Shape(s2) && s2.pc == s.pc[u := BLoop(c)] && s2.rings == s.rings && s2.bits == s.bits
            && s2.guards == s.guards[c := Some(u)] && s2.mutexes == s.mutexes
  {
    assert Next(s, CallBroadcast(u, c)).pc[u] == BObtain(c);
  }

  /** The state with the oldest waiter of `c` woken, if there is one, the rest as it was. */
  predicate OldestWoken(s: State, s': State, u: Task, c: nat) {
    && Shape(s) && c < |s.rings| && u in s.pc && s'.pc == s.pc[u := Idle] && s'.guards == s.guards[c := None]
    && s'.mutexes == s.mutexes && (s.rings[c] == [] ==> s'.rings == s.rings && s'.bits == s.bits)
    && (s.rings[c] != [] ==> s'.rings == s.rings[c := s.rings[c][1..]] && s'.bits == s.bits + {s.rings[c][0]})
  }

  /** From inside its locked section, a signal on its own picks the oldest waiter and leaves. */
  lemma PickAlone(s: State, u: Task, c: nat) returns (acts: seq<Action>)
    requires Shape(s) && c < |s.rings| && u in s.pc && s.pc[u] == SPop(c)
    ensures OldestWoken(s, Exec(s, acts), u, c)
  {
    var s1 := Next(s, Go(u));
    var s2 := Next(s1, Go(u));
    if s.rings[c] == [] {
      LeavesEmpty(s, u, c);
      ExecFirst(s1, Go(u), []);
      ExecFirst(s, Go(u), [Go(u)]);
      return [Go(u)] + [Go(u)];
    }
    LeavesSignalled(s, u, c);
    ExecFirst(s2, Go(u), []);
    ExecFirst(s1, Go(u), [Go(u)]);
    ExecFirst(s, Go(u), [Go(u)] + [Go(u)]);
    acts := [Go(u)] + ([Go(u)] + [Go(u)]);
  }

  /** The same for a signal: it comes back with the bit of the oldest waiter set, if there is one. */
  lemma {:induction false} SignalAlone(s: State, u: Task, c: nat) returns (acts: seq<Action>)
    requires Shape(s) && c < |s.rings| && u in s.pc && s.pc[u] == Idle && s.guards[c] == None
    ensures OldestWoken(s, Exec(s, acts), u, c)
  {
    var s1 := Next(s, CallSignal(u, c));
    var s2 := Next(s1, Go(u));
    EntersSignal(s, u, c);
    acts := PickAlone(s2, u, c);
    ExecFirst(s1, Go(u), acts);
    ExecFirst(s, CallSignal(u, c), [Go(u)] + acts);
    acts := [CallSignal(u, c)] + ([Go(u)] + acts);
  }

  lemma EntersSignal(s: State, u: Task, c: nat)
    requires Shape(s) && c < |s.rings| && u in s.pc && s.pc[u] == Idle && s.guards[c] == None
    ensures var s2 := Next(Next(s, CallSignal(u, c)), Go(u));
            && Shape(s2) && s2.pc == s.pc[u := SPop(c)] && s2.rings == s.rings && s2.bits == s.bits
            && s2.guards == s.guards[c := Some(u)] && s2.mutexes == s.mutexes
  {
    assert Next(s, CallSignal(u, c)).pc[u] == SObtain(c);
  }

  lemma LeavesEmpty(s: State, u: Task, c: nat)
    requires Shape(s) && c < |s.rings| && u in s.pc && s.pc[u] == SPop(c) && s.rings[c] == []
    ensures var s2 := Next(Next(s, Go(u)), Go(u));
            && s2.pc == s.pc[u := Idle] && s2.rings == s.rings && s2.bits == s.bits
            && s2.guards == s.guards[c := None] && s2.mutexes == s.mutexes
  {
    assert Next(s, Go(u)).pc[u] == SEmpty(c);
  }

  lemma LeavesSignalled(s: State, u: Task, c: nat)
    requires Shape(s) && c < |s.rings| && u in s.pc && s.pc[u] == SPop(c) && s.rings[c] != []
    ensures var s3 := Next(Next(Next(s, Go(u)), Go(u)), Go(u));
            && s3.pc == s.pc[u := Idle] && s3.rings == s.rings[c := s.rings[c][1..]]
            && s3.bits == s.bits + {s.rings[c][0]} && s3.guards == s.guards[c := None] && s3.mutexes == s.mutexes
  {
    var w := s.rings[c][0];
    assert Next(s, Go(u)).pc[u] == SRelease(c, w);
    assert Next(Next(s, Go(u)), Go(u)).pc[u] == SSignal(c, w);
  }
}
