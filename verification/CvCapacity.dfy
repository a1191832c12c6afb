/** When the ring of a condition variable overflows. */
module CvCapacity {
  import opened Wrappers
  import opened CvProtocol

  lemma {:induction false} DistinctFits(ring: seq<Task>, tasks: set<Task>)
    requires forall x :: multiset(ring)[x] <= 1
    requires forall x :: x in ring ==> x in tasks
    ensures |ring| <= |tasks|
  {
    if ring != [] {
      var rest := ring[1..];
      forall x
        ensures multiset(rest)[x] <= 1 && multiset(rest)[ring[0]] == 0
      {
        CountPop(ring, x);
        CountPop(ring, ring[0]);
      }
      assert forall x :: x in rest ==> x in multiset(rest);
      DistinctFits(rest, tasks - {ring[0]});
    }
  }

  lemma RingFits(s: State, t: Task, c: nat)
    requires Inv(s) && t in s.pc && s.pc[t].WPush? && c < |s.rings|
    ensures |s.rings[c]| < |s.pc|
  {
    forall x
      ensures multiset(s.rings[c])[x] <= 1
      ensures x in s.rings[c] ==> x in s.pc.Keys - {t}
    {
      assert TaskOk(s, x);
      TotalCovers(s.rings, c, x);
      assert x in s.rings[c] ==> multiset(s.rings[c])[x] > 0;
    }
    DistinctFits(s.rings[c], s.pc.Keys - {t});
  }

  /** With at most 32 tasks the overflow panic is never reached in a punctual run, at any condition variable. */
  lemma {:induction false} OverflowUnreachable(tasks: set<Task>, cvs: nat, mutexes: nat, acts: seq<Action>)
    requires |tasks| <= 32 && Punctual(tasks, cvs, mutexes, acts)
    ensures var s := Exec(Init(tasks, cvs, mutexes), acts); forall t :: t in s.pc ==> s.pc[t] != Panicked
  {
    if acts != [] {
      var a := acts[|acts| - 1];
      var s := Exec(Init(tasks, cvs, mutexes), acts[..|acts| - 1]);
      PunctualFront(tasks, cvs, mutexes, acts, |acts| - 1);
      OverflowUnreachable(tasks, cvs, mutexes, acts[..|acts| - 1]);
      RunInv(tasks, cvs, mutexes, acts[..|acts| - 1]);
      if a.t in s.pc && s.pc[a.t].WPush? && s.pc[a.t].c < |s.rings| {
        RingFits(s, a.t, s.pc[a.t].c);
      }
      OnlyPushPanics(s, a);
    }
  }

  lemma OnlyPushPanics(s: State, a: Action)
    requires forall t :: t in s.pc ==> s.pc[t] != Panicked
    requires a.t in s.pc && s.pc[a.t].WPush? && s.pc[a.t].c < |s.rings| ==> |s.rings[s.pc[a.t].c]| < MAX_WAITERS
    ensures forall t :: t in Next(s, a).pc ==> Next(s, a).pc[t] != Panicked
  {
  }

  /** Condition variable `c` and mutex `x` are free, and the tasks in `idle` are outside the library. */
  predicate AtRest(s: State, c: nat, x: nat, idle: set<Task>) {
    && Shape(s) && c < |s.rings| && x < |s.mutexes| && s.guards[c] == None && s.mutexes[x] == None
    && forall t :: t in idle ==> t in s.pc && s.pc[t] == Idle
  }

  /** From rest, an idle task can enter wait and run up to the enqueueing. */
  lemma EnterWait(init: State, acts: seq<Action>, t: Task, c: nat, x: nat, idle: set<Task>) returns (acts': seq<Action>)
    requires AtRest(Exec(init, acts), c, x, idle) && t in idle && Untimed(acts)
    ensures Untimed(acts')
    ensures var s, s' := Exec(init, acts), Exec(init, acts');
            && Shape(s') && s'.pc == s.pc[t := WPush(c, x, false)] && s'.rings == s.rings
            && s'.guards == s.guards[c := Some(t)] && s'.mutexes == s.mutexes[x := Some(t)]
  {
    var a1 := acts + [Lock(t, x)];
    var a2 := a1 + [CallWait(t, c, x, false)];
    var a3 := a2 + [Go(t)];
    ExecSnoc(init, acts, Lock(t, x));
    ExecSnoc(init, a1, CallWait(t, c, x, false));
    ExecSnoc(init, a2, Go(t));
    ExecSnoc(init, a3, Go(t));
    acts' := a3 + [Go(t)];
  }

  lemma FallAsleep(init: State, acts: seq<Action>, t: Task, c: nat, x: nat) returns (acts': seq<Action>)
    requires var s := Exec(init, acts);
             && Shape(s) && c < |s.rings| && x < |s.mutexes| && t in s.pc && s.pc[t] == WPush(c, x, false)
             && |s.rings[c]| < MAX_WAITERS && Untimed(acts)
    ensures Untimed(acts')
    ensures var s, s' := Exec(init, acts), Exec(init, acts');
            && Shape(s') && s'.pc == s.pc[t := WSleep(c, x, false)] && s'.rings == s.rings[c := s.rings[c] + [t]]
            && s'.guards == s.guards[c := None] && s'.mutexes == s.mutexes[x := None]
  {
    var a1 := acts + [Go(t)];
    var a2 := a1 + [Go(t)];
    ExecSnoc(init, acts, Go(t));
    ExecSnoc(init, a1, Go(t));
    ExecSnoc(init, a2, Go(t));
    acts' := a2 + [Go(t)];
  }

  /** The first `n` of any tasks, up to the capacity, can be put to sleep one after the other. */
  lemma {:induction false} FillRing(ts: seq<Task>, n: nat, init: State, c: nat, x: nat) returns (acts: seq<Action>)
    requires Distinct(ts) && n <= |ts| && n <= MAX_WAITERS && AtRest(init, c, x, SetOf(ts)) && init.rings[c] == []
    ensures Untimed(acts)
    ensures var s := Exec(init, acts);
            AtRest(s, c, x, SetOf(ts[n..])) && |s.rings[c]| == n
  {
    if n == 0 {
      return [];
    }
    var t, rest := ts[n - 1], ts[n - 1..];
    assert rest[0] == t && rest[1..] == ts[n..];
    acts := FillRing(ts, n - 1, init, c, x);
    acts := EnterWait(init, acts, t, c, x, SetOf(rest));
    acts := FallAsleep(init, acts, t, c, x);
    assert forall y :: y in ts[n..] ==> y in rest && y != t;
  }

  /** With more than 32 tasks, some run reaches the overflow panic, at any condition variable: the bound
      is exact. */
  lemma OverflowReachable(ts: seq<Task>, cvs: nat, mutexes: nat, c: nat, x: nat) returns (acts: seq<Action>, t: Task)
    requires Distinct(ts) && |ts| > 32 && c < cvs && x < mutexes
    ensures Untimed(acts)
    ensures var s := Exec(Init(SetOf(ts), cvs, mutexes), acts); t in s.pc && s.pc[t] == Panicked
  {
    var init := Init(SetOf(ts), cvs, mutexes);
    t := ts[MAX_WAITERS];
    acts := FillRing(ts, MAX_WAITERS, init, c, x);
    assert ts[MAX_WAITERS..][0] == t;
    acts := EnterWait(init, acts, t, c, x, SetOf(ts[MAX_WAITERS..]));
    ExecSnoc(init, acts, Go(t));
    acts := acts + [Go(t)];
  }
}
