/** Wait, timed wait, signal and broadcast on any number of condition variables, by any number of tasks,
    interleaved at the level of single locked sections, Signal and Wait calls. Each ring is the sequence
    that WaiterRing implements; semaphores are locks. Every task has one signal bit, which all condition
    variables share. */
module CvProtocol {
  import opened Wrappers
  import WaiterRing

  const MAX_WAITERS := WaiterRing.MAX_WAITERS

  type Task = int

  /** Where a task is. Names starting with W, S and B are inside wait, signal and broadcast on condition
      variable `c`; `x` is the mutex of the wait, and `timed` says whether it may time out. At WSleep a
      plain wait sleeps until its bit is set; a timed one looks at the bit from time to time. Names
      starting with T are on the way out of a timed wait that has looked for the last time. */
  datatype Pc =
    | Idle
    | WClear(c: nat, x: nat, timed: bool) | WObtain(c: nat, x: nat, timed: bool) | WPush(c: nat, x: nat, timed: bool)
    | WRelease(c: nat, x: nat, timed: bool) | WUnlock(c: nat, x: nat, timed: bool) | WSleep(c: nat, x: nat, timed: bool)
    | TObtain(c: nat, x: nat) | TRemove(c: nat, x: nat) | TRelease(c: nat, x: nat)
    | WLock(c: nat, x: nat)
    | SObtain(c: nat) | SPop(c: nat) | SEmpty(c: nat) | SRelease(c: nat, target: Task) | SSignal(c: nat, target: Task)
    | BObtain(c: nat) | BLoop(c: nat) | BSignal(c: nat, target: Task)
    | Panicked

  datatype State = State(
    pc: map<Task, Pc>,
    rings: seq<seq<Task>>,         // the waiters of each condition variable
    bits: set<Task>,               // tasks whose signal bit is set
    guards: seq<Option<Task>>,     // holder of each condition variable's guard
    mutexes: seq<Option<Task>>,    // holder of each mutex
    pushes: seq<seq<Task>>,        // history: enqueued and not withdrawn, at each condition variable
    pops: seq<seq<Task>>,          // dequeued, at each condition variable
    wakes: seq<Task>)              // woken

  function Init(tasks: set<Task>, cvs: nat, mutexes: nat): State {
    State(map t | t in tasks :: Idle, seq(cvs, _ => []), {}, seq(cvs, _ => None), seq(mutexes, _ => None),
          seq(cvs, _ => []), seq(cvs, _ => []), [])
  }

  /** One ring, guard and history for each condition variable. */
  predicate Shape(s: State) {
    |s.guards| == |s.rings| && |s.pushes| == |s.rings| && |s.pops| == |s.rings|
  }

  predicate InWait(pc: Pc) {
    HoldsMutex(pc) || LacksMutex(pc)
  }

  /** The condition variable and the mutex the task works on exist. */
  predicate InBounds(s: State, pc: Pc) {
    && (!pc.Idle? && !pc.Panicked? ==> pc.c < |s.rings|)
    && (InWait(pc) ==> pc.x < |s.mutexes|)
  }

  /** A scheduling choice: a task outside the library takes or gives back a mutex or enters one of
      the calls, a task inside takes its next step, or a timed wait has run out. */
  datatype Action =
    | Lock(t: Task, m: nat)
    | Unlock(t: Task, m: nat)
    | CallWait(t: Task, cv: nat, m: nat, timed: bool)
    | CallSignal(t: Task, cv: nat)
    | CallBroadcast(t: Task, cv: nat)
    | Go(t: Task)
    | Expire(t: Task)

  predicate Enabled(s: State, a: Action) {
    Shape(s) && a.t in s.pc &&
    match a
    case Lock(t, m) => s.pc[t] == Idle && m < |s.mutexes| && s.mutexes[m] == None
    case Unlock(t, m) => s.pc[t] == Idle && m < |s.mutexes| && s.mutexes[m] == Some(t)
    case CallWait(t, cv, m, _) => s.pc[t] == Idle && cv < |s.rings| && m < |s.mutexes| && s.mutexes[m] == Some(t)
    case CallSignal(t, cv) => s.pc[t] == Idle && cv < |s.rings|
    case CallBroadcast(t, cv) => s.pc[t] == Idle && cv < |s.rings|
    case Go(t) => InBounds(s, s.pc[t]) && CanGo(s, t)
    case Expire(t) => s.pc[t].WSleep? && s.pc[t].timed
  }

  /** Only locks that are taken, and a signal that has not come, hold a task up. */
  predicate CanGo(s: State, t: Task)
    requires Shape(s) && t in s.pc && InBounds(s, s.pc[t])
  {
    match s.pc[t]
    case Idle => false
    case Panicked => false
    case WObtain(c, _, _) => s.guards[c] == None
    case TObtain(c, _) => s.guards[c] == None
    case SObtain(c) => s.guards[c] == None
    case BObtain(c) => s.guards[c] == None
    case WSleep(_, _, _) => t in s.bits
    case WLock(_, x) => s.mutexes[x] == None
    case _ => true
  }

  function At(s: State, t: Task, pc: Pc): State {
    s.(pc := s.pc[t := pc])
  }

  function Guarded(s: State, c: nat, holder: Option<Task>): State
    requires c < |s.guards|
  {
    s.(guards := s.guards[c := holder])
  }

  function Popped(s: State, c: nat): State
    requires Shape(s) && c < |s.rings| && s.rings[c] != []
  {
    s.(rings := s.rings[c := s.rings[c][1..]], pops := s.pops[c := s.pops[c] + [s.rings[c][0]]])
  }

  function Pushed(s: State, c: nat, t: Task): State
    requires Shape(s) && c < |s.rings|
  {
    s.(rings := s.rings[c := s.rings[c] + [t]], pushes := s.pushes[c := s.pushes[c] + [t]])
  }

  /** `ring` without the first entry of `t`. */
  function Without(ring: seq<Task>, t: Task): seq<Task> {
    if ring == [] then [] else if ring[0] == t then ring[1..] else [ring[0]] + Without(ring[1..], t)
  }

  /** `t` withdraws its entry, if it is still queued. */
  function Removed(s: State, c: nat, t: Task): State
    requires Shape(s) && c < |s.rings|
  {
    var n := if |s.pops[c]| <= |s.pushes[c]| then |s.pops[c]| else 0;
    s.(rings := s.rings[c := Without(s.rings[c], t)],
       pushes := s.pushes[c := s.pushes[c][..n] + Without(s.pushes[c][n..], t)])
  }

  /** Where a task inside a call goes next. */
  function Successor(s: State, t: Task): Pc
    requires Enabled(s, Go(t))
  {
    match s.pc[t]
    case WClear(c, x, timed) => WObtain(c, x, timed)
    case WObtain(c, x, timed) => WPush(c, x, timed)
    case WPush(c, x, timed) => if |s.rings[c]| >= MAX_WAITERS then Panicked else WRelease(c, x, timed)
    case WRelease(c, x, timed) => WUnlock(c, x, timed)
    case WUnlock(c, x, timed) => WSleep(c, x, timed)
    case WSleep(c, x, _) => WLock(c, x)
    case TObtain(c, x) => TRemove(c, x)
    case TRemove(c, x) => TRelease(c, x)
    case TRelease(c, x) => WLock(c, x)
    case WLock(_, _) => Idle
    case SObtain(c) => SPop(c)
    case SPop(c) => if s.rings[c] == [] then SEmpty(c) else SRelease(c, s.rings[c][0])
    case SEmpty(_) => Idle
    case SRelease(c, w) => SSignal(c, w)
    case SSignal(_, _) => Idle
    case BObtain(c) => BLoop(c)
    case BLoop(c) => if s.rings[c] == [] then Idle else BSignal(c, s.rings[c][0])
    case BSignal(c, _) => BLoop(c)
  }

  /** What its step does to rings, bits and locks. */
  function Effect(s: State, t: Task): (r: State)
    requires Enabled(s, Go(t))
    ensures r.pc == s.pc && Shape(r) && |r.rings| == |s.rings| && |r.mutexes| == |s.mutexes|
  {
    match s.pc[t]
    case WClear(_, _, _) => s.(bits := s.bits - {t})
    case WObtain(c, _, _) => Guarded(s, c, Some(t))
    case WPush(c, _, _) => if |s.rings[c]| >= MAX_WAITERS then Guarded(s, c, None) else Pushed(s, c, t)
    case WRelease(c, _, _) => Guarded(s, c, None)
    case WUnlock(_, x, _) => s.(mutexes := s.mutexes[x := None])
    case WSleep(_, _, _) => s.(bits := s.bits - {t}, wakes := s.wakes + [t])
    case TObtain(c, _) => Guarded(s, c, Some(t))
    case TRemove(c, _) => Removed(s, c, t)
    case TRelease(c, _) => Guarded(s, c, None)
    case WLock(_, x) => s.(mutexes := s.mutexes[x := Some(t)])
    case SObtain(c) => Guarded(s, c, Some(t))
    case SPop(c) => if s.rings[c] == [] then s else Popped(s, c)
    case SEmpty(c) => Guarded(s, c, None)
    case SRelease(c, _) => Guarded(s, c, None)
    case SSignal(_, w) => s.(bits := s.bits + {w})
    case BObtain(c) => Guarded(s, c, Some(t))
    case BLoop(c) => if s.rings[c] == [] then Guarded(s, c, None) else Popped(s, c)
    case BSignal(_, w) => s.(bits := s.bits + {w})
  }

  function Advance(s: State, t: Task): State
    requires Enabled(s, Go(t))
  {
    Effect(s, t).(pc := s.pc[t := Successor(s, t)])
  }

  /** One step; an action that is not enabled changes nothing. */
  function Next(s: State, a: Action): State {
    if !Enabled(s, a) then s
    else
      match a
      case Lock(t, m) => s.(mutexes := s.mutexes[m := Some(t)])
      case Unlock(t, m) => s.(mutexes := s.mutexes[m := None])
      case CallWait(t, cv, m, timed) => At(s, t, WClear(cv, m, timed))
      case CallSignal(t, cv) => At(s, t, SObtain(cv))
      case CallBroadcast(t, cv) => At(s, t, BObtain(cv))
      case Go(t) => Advance(s, t)
      case Expire(t) => At(s, t, TObtain(s.pc[t].c, s.pc[t].x))
  }

  function Exec(s: State, acts: seq<Action>): State {
    if acts == [] then s else Next(Exec(s, acts[..|acts| - 1]), acts[|acts| - 1])
  }

  // ---- Tokens ------------------------------------------------------------

  /** The task a signaller has popped and not yet signalled. */
  function Target(pc: Pc): Option<Task> {
    match pc
    case SRelease(_, w) => Some(w)
    case SSignal(_, w) => Some(w)
    case BSignal(_, w) => Some(w)
    case _ => None
  }

  /** Between its enqueueing and its waking up or withdrawal. */
  predicate Awaiting(pc: Pc) {
    pc.WRelease? || pc.WUnlock? || pc.WSleep? || pc.TObtain? || pc.TRemove?
  }

  function Signallers(pc: map<Task, Pc>, w: Task): set<Task> {
    set u | u in pc && Target(pc[u]) == Some(w)
  }

  /** Signals to `t` that are under way: popped but not yet sent, or sent and not yet consumed. */
  function UnderWay(s: State, t: Task): nat {
    |Signallers(s.pc, t)| + if t in s.bits then 1 else 0
  }

  /** How often `t` occurs in the sequences together. */
  function Total(rs: seq<seq<Task>>, t: Task): nat {
    if rs == [] then 0 else Total(rs[..|rs| - 1], t) + multiset(rs[|rs| - 1])[t]
  }

  /** How many ways `t` is bound to be woken: entries in the rings of all condition variables, signals
      under way from any of them, its signal bit. */
  function Tokens(s: State, t: Task): nat {
    Total(s.rings, t) + UnderWay(s, t)
  }

  predicate HoldsGuard(pc: Pc) {
    || pc.WPush? || pc.WRelease? || pc.TRemove? || pc.TRelease?
    || pc.SPop? || pc.SEmpty? || pc.SRelease? || pc.BLoop? || pc.BSignal?
  }

  predicate HoldsMutex(pc: Pc) {
    pc.WClear? || pc.WObtain? || pc.WPush? || pc.WRelease? || pc.WUnlock?
  }

  predicate LacksMutex(pc: Pc) {
    pc.WSleep? || pc.TObtain? || pc.TRemove? || pc.TRelease? || pc.WLock?
  }

  /** A task between enqueue and wake has exactly one token; every other task has none. */
  predicate TokenExact(s: State, t: Task) {
    Tokens(s, t) == if t in s.pc && Awaiting(s.pc[t]) then 1 else 0
  }

  /** Every dequeueing of `t`, at whatever condition variable, has woken it or is about to. */
  predicate Balanced(s: State, t: Task) {
    Total(s.pops, t) == multiset(s.wakes)[t] + UnderWay(s, t)
  }

  predicate WaitsOn(s: State, t: Task, c: nat) {
    t in s.pc && Awaiting(s.pc[t]) && s.pc[t].c == c
  }

  /** `t` is queued at, and about to be signalled from, only the condition variable it waits on. */
  predicate NoCross(s: State, t: Task) {
    && (forall c :: 0 <= c < |s.rings| && t in s.rings[c] ==> WaitsOn(s, t, c))
    && (forall u :: u in s.pc && Target(s.pc[u]) == Some(t) ==> WaitsOn(s, t, s.pc[u].c))
  }

  /** A guard is held exactly inside the locked sections of its condition variable. */
  predicate GuardsHeld(s: State, t: Task) {
    forall c :: 0 <= c < |s.guards| ==>
      (s.guards[c] == Some(t) <==> t in s.pc && HoldsGuard(s.pc[t]) && s.pc[t].c == c)
  }

  /** A waiter holds its mutex until it has been enqueued, and then gives it up until it leaves the
      wait. */
  predicate MutexHeld(s: State, t: Task)
    requires t in s.pc && InBounds(s, s.pc[t])
  {
    && (HoldsMutex(s.pc[t]) ==> s.mutexes[s.pc[t].x] == Some(t))
    && (LacksMutex(s.pc[t]) ==> s.mutexes[s.pc[t].x] != Some(t))
  }

  predicate LocksHeld(s: State, t: Task) {
    GuardsHeld(s, t) && (t in s.pc ==> InBounds(s, s.pc[t]) && MutexHeld(s, t))
  }

  predicate Fifo(s: State)
    requires Shape(s)
  {
    forall c :: 0 <= c < |s.rings| ==> s.pushes[c] == s.pops[c] + s.rings[c]
  }

  predicate TaskOk(s: State, t: Task) {
    TokenExact(s, t) && Balanced(s, t) && NoCross(s, t)
  }

  ghost predicate Counted(s: State) {
    Shape(s) && Fifo(s) && forall t :: TaskOk(s, t)
  }

  ghost predicate Inv(s: State) {
    Counted(s) && forall t :: LocksHeld(s, t)
  }

  // ---- Counting ----------------------------------------------------------

  lemma SignallersAt(pc: map<Task, Pc>, t: Task, next: Pc, w: Task)
    requires t in pc
    ensures |Signallers(pc[t := next], w)| ==
            |Signallers(pc, w)|
            - (if Target(pc[t]) == Some(w) then 1 else 0) + (if Target(next) == Some(w) then 1 else 0)
  {
    var before, after := Signallers(pc, w), Signallers(pc[t := next], w);
    var rest := before - {t};
    assert before == if Target(pc[t]) == Some(w) then rest + {t} else rest;
    assert after == if Target(next) == Some(w) then rest + {t} else rest;
  }

  lemma CountAppend(s: seq<Task>, t: Task, x: Task)
    ensures multiset(s + [t])[x] == multiset(s)[x] + if x == t then 1 else 0
  {
  }

  lemma CountPop(s: seq<Task>, x: Task)
    requires s != []
    ensures multiset(s)[x] == multiset(s[1..])[x] + if x == s[0] then 1 else 0
  {
    assert s == [s[0]] + s[1..];
  }

  /** Changing one of the sequences changes the total by the change in that sequence. */
  lemma {:induction false} TotalUpdate(rs: seq<seq<Task>>, c: nat, r: seq<Task>, t: Task)
    requires c < |rs|
    ensures Total(rs[c := r], t) + multiset(rs[c])[t] == Total(rs, t) + multiset(r)[t]
  {
    var n := |rs| - 1;
    if c < n {
      TotalUpdate(rs[..n], c, r, t);
      assert rs[c := r][..n] == rs[..n][c := r];
    } else {
      assert rs[c := r][..n] == rs[..n];
    }
  }

  lemma {:induction false} TotalCovers(rs: seq<seq<Task>>, c: nat, t: Task)
    requires c < |rs|
    ensures multiset(rs[c])[t] <= Total(rs, t)
  {
    if c < |rs| - 1 {
      TotalCovers(rs[..|rs| - 1], c, t);
    }
  }

  lemma {:induction false} TotalEmpty(rs: seq<seq<Task>>, t: Task)
    requires forall c :: 0 <= c < |rs| ==> t !in rs[c]
    ensures Total(rs, t) == 0
  {
    if rs != [] {
      TotalEmpty(rs[..|rs| - 1], t);
      assert t !in rs[|rs| - 1];
    }
  }

  lemma {:induction false} CountWithout(ring: seq<Task>, t: Task, y: Task)
    ensures multiset(Without(ring, t))[y] == multiset(ring)[y] - if y == t && t in ring then 1 else 0
    ensures y in Without(ring, t) ==> y in ring
  {
    if ring != [] {
      CountPop(ring, y);
      assert t in ring <==> t == ring[0] || t in ring[1..];
      if ring[0] != t {
        CountWithout(ring[1..], t, y);
        assert ring == [ring[0]] + ring[1..];
        assert multiset(Without(ring, t)) == multiset([ring[0]]) + multiset(Without(ring[1..], t));
      }
    }
  }

  /** Without tokens a task is in no ring and in nobody's hands. */
  lemma NoTokens(s: State, t: Task)
    requires Tokens(s, t) == 0 || (Tokens(s, t) == 1 && t in s.bits)
    ensures forall c :: 0 <= c < |s.rings| ==> t !in s.rings[c]
    ensures forall u :: u in s.pc ==> Target(s.pc[u]) != Some(t)
  {
    forall c | 0 <= c < |s.rings|
      ensures t !in s.rings[c]
    {
      TotalCovers(s.rings, c, t);
    }
    assert |Signallers(s.pc, t)| == 0;
    forall u | u in s.pc
      ensures Target(s.pc[u]) != Some(t)
    {
      assert u !in Signallers(s.pc, t);
    }
  }

  // ---- Preservation ------------------------------------------------------

  /** The task moves on within its call, or outside any. */
  predicate SameRole(pc: Pc, next: Pc) {
    && Target(next) == Target(pc) && (Awaiting(next) <==> Awaiting(pc))
    && (Awaiting(pc) || Target(pc).Some? ==> next.c == pc.c)
  }

  /** A step that moves no token. */
  lemma QuietStep(s: State, s': State, t: Task, next: Pc)
    requires Counted(s) && t in s.pc && s'.pc == s.pc[t := next] && SameRole(s.pc[t], next)
    requires s'.rings == s.rings && s'.pushes == s.pushes && s'.pops == s.pops && s'.wakes == s.wakes
    requires s'.bits == s.bits && |s'.guards| == |s.guards|
    ensures Counted(s')
  {
    forall y
      ensures TaskOk(s', y)
    {
      SignallersAt(s.pc, t, next, y);
      assert TaskOk(s, y);
    }
  }

  /** A task at the start of a wait never has its bit set, so clearing it changes nothing. */
  lemma ClearIsQuiet(s: State, t: Task)
    requires TokenExact(s, t) && t in s.pc && !Awaiting(s.pc[t])
    ensures s.bits - {t} == s.bits && forall c :: 0 <= c < |s.rings| ==> t !in s.rings[c]
  {
    NoTokens(s, t);
  }

  lemma PushStep(s: State, s': State, t: Task, c: nat, next: Pc)
    requires Counted(s) && t in s.pc && !Awaiting(s.pc[t]) && Target(s.pc[t]) == None && c < |s.rings|
    requires next.WRelease? && next.c == c && s'.pc == s.pc[t := next]
    requires s'.rings == s.rings[c := s.rings[c] + [t]] && s'.pushes == s.pushes[c := s.pushes[c] + [t]]
    requires s'.pops == s.pops && s'.wakes == s.wakes && s'.bits == s.bits && s'.guards == s.guards
    ensures Counted(s')
  {
    assert TaskOk(s, t);
    NoTokens(s, t);
    forall y
      ensures TaskOk(s', y)
    {
      SignallersAt(s.pc, t, next, y);
      TotalUpdate(s.rings, c, s.rings[c] + [t], y);
      CountAppend(s.rings[c], t, y);
      assert TaskOk(s, y);
      PushKeepsNoCross(s, s', t, c, next, y);
    }
    assert s.pops[c] + (s.rings[c] + [t]) == (s.pops[c] + s.rings[c]) + [t];
  }

  lemma PushKeepsNoCross(s: State, s': State, t: Task, c: nat, next: Pc, y: Task)
    requires NoCross(s, y) && t in s.pc && !Awaiting(s.pc[t]) && c < |s.rings| && next.WRelease? && next.c == c
    requires s'.pc == s.pc[t := next] && s'.rings == s.rings[c := s.rings[c] + [t]]
    ensures NoCross(s', y)
  {
    forall d | 0 <= d < |s'.rings| && y in s'.rings[d]
      ensures WaitsOn(s', y, d)
    {
      assert y in s.rings[d] || (y == t && d == c);
    }
  }

  lemma WakeStep(s: State, s': State, t: Task, next: Pc)
    requires Counted(s) && t in s.pc && s.pc[t].WSleep? && t in s.bits && next.WLock?
    requires s'.pc == s.pc[t := next] && s'.bits == s.bits - {t} && s'.wakes == s.wakes + [t]
    requires s'.rings == s.rings && s'.pushes == s.pushes && s'.pops == s.pops && s'.guards == s.guards
    ensures Counted(s')
  {
    assert TaskOk(s, t);
    NoTokens(s, t);
    forall y
      ensures TaskOk(s', y)
    {
      SignallersAt(s.pc, t, next, y);
      CountAppend(s.wakes, t, y);
      assert TaskOk(s, y);
    }
  }

  lemma PopStep(s: State, s': State, t: Task, c: nat, next: Pc)
    requires Counted(s) && t in s.pc && !Awaiting(s.pc[t]) && Target(s.pc[t]) == None
    requires c < |s.rings| && s.rings[c] != []
    requires !Awaiting(next) && Target(next) == Some(s.rings[c][0]) && next.c == c
    requires s'.pc == s.pc[t := next] && s'.rings == s.rings[c := s.rings[c][1..]]
    requires s'.pops == s.pops[c := s.pops[c] + [s.rings[c][0]]]
    requires s'.pushes == s.pushes && s'.wakes == s.wakes && s'.bits == s.bits && s'.guards == s.guards
    ensures Counted(s')
  {
    var w := s.rings[c][0];
    forall y
      ensures TaskOk(s', y)
    {
      SignallersAt(s.pc, t, next, y);
      TotalUpdate(s.rings, c, s.rings[c][1..], y);
      TotalUpdate(s.pops, c, s.pops[c] + [w], y);
      CountPop(s.rings[c], y);
      CountAppend(s.pops[c], w, y);
      assert TaskOk(s, y);
      PopKeepsNoCross(s, s', t, c, next, y);
    }
    MoveOne(s.pops[c], s.rings[c]);
  }

  lemma PopKeepsNoCross(s: State, s': State, t: Task, c: nat, next: Pc, y: Task)
    requires NoCross(s, y) && t in s.pc && !Awaiting(s.pc[t]) && c < |s.rings| && s.rings[c] != []
    requires !Awaiting(next) && Target(next) == Some(s.rings[c][0]) && next.c == c
    requires s'.pc == s.pc[t := next] && s'.rings == s.rings[c := s.rings[c][1..]]
    ensures NoCross(s', y)
  {
    forall d | 0 <= d < |s'.rings| && y in s'.rings[d]
      ensures WaitsOn(s', y, d)
    {
      assert y in s.rings[d];
    }
    assert s.rings[c][0] in s.rings[c];
  }

  /** A timed wait withdraws its entry. */
  lemma RemoveStep(s: State, s': State, t: Task, c: nat, next: Pc)
    requires Counted(s) && t in s.pc && Awaiting(s.pc[t]) && Target(s.pc[t]) == None && c < |s.rings| && t in s.rings[c]
    requires !Awaiting(next) && Target(next) == None && s'.pc == s.pc[t := next]
    requires s'.rings == Removed(s, c, t).rings && s'.pushes == Removed(s, c, t).pushes
    requires s'.pops == s.pops && s'.wakes == s.wakes && s'.bits == s.bits && s'.guards == s.guards
    ensures Counted(s')
  {
    var r := Without(s.rings[c], t);
    forall y
      ensures TaskOk(s', y)
    {
      SignallersAt(s.pc, t, next, y);
      TotalUpdate(s.rings, c, r, y);
      CountWithout(s.rings[c], t, y);
      assert TaskOk(s, y);
      RemoveKeepsNoCross(s, s', t, c, next, y);
    }
    assert s.pushes[c][..|s.pops[c]|] == s.pops[c] && s.pushes[c][|s.pops[c]|..] == s.rings[c];
  }

  lemma RemoveKeepsNoCross(s: State, s': State, t: Task, c: nat, next: Pc, y: Task)
    requires NoCross(s, y) && TokenExact(s', y) && t in s.pc && c < |s.rings| && !Awaiting(next) && Target(next) == None
    requires s'.pc == s.pc[t := next] && s'.rings == s.rings[c := Without(s.rings[c], t)]
    ensures NoCross(s', y)
  {
    if y == t {
      NoTokens(s', t);
    } else {
      forall d | 0 <= d < |s'.rings| && y in s'.rings[d]
        ensures WaitsOn(s', y, d)
      {
        CountWithout(s.rings[c], t, y);
        assert y in s.rings[d];
      }
    }
  }

  lemma MoveOne(xs: seq<Task>, ys: seq<Task>)
    requires ys != []
    ensures (xs + [ys[0]]) + ys[1..] == xs + ys
  {
  }

  /** A signal finds the target's bit clear, whichever condition variable it comes from, so none is
      merged with an earlier one; and the target still waits on the signaller's condition variable. */
  lemma SignalStep(s: State, s': State, t: Task, w: Task, next: Pc)
    requires Counted(s) && t in s.pc && !Awaiting(s.pc[t]) && Target(s.pc[t]) == Some(w)
    requires !Awaiting(next) && Target(next) == None
    requires s'.pc == s.pc[t := next] && s'.bits == s.bits + {w}
    requires s'.rings == s.rings && s'.pushes == s.pushes && s'.pops == s.pops && s'.wakes == s.wakes
    requires s'.guards == s.guards
    ensures w !in s.bits && WaitsOn(s, w, s.pc[t].c) && Counted(s')
  {
    assert w !in s.bits && WaitsOn(s, w, s.pc[t].c) by {
      assert TaskOk(s, w);
      assert t in Signallers(s.pc, w);
    }
    forall y
      ensures TaskOk(s', y)
    {
      SignallersAt(s.pc, t, next, y);
      assert TaskOk(s, y);
    }
  }

  /** The task keeps the guard it has, if any. */
  lemma KeepsGuard(s: State, s': State, t: Task, next: Pc, u: Task)
    requires GuardsHeld(s, u) && t in s.pc && s'.pc == s.pc[t := next] && s'.guards == s.guards
    requires HoldsGuard(next) <==> HoldsGuard(s.pc[t])
    requires HoldsGuard(next) ==> next.c == s.pc[t].c
    ensures GuardsHeld(s', u)
  {
  }

  lemma TakesGuard(s: State, s': State, t: Task, c: nat, next: Pc, u: Task)
    requires GuardsHeld(s, t) && GuardsHeld(s, u) && t in s.pc && s'.pc == s.pc[t := next]
    requires c < |s.guards| && s.guards[c] == None && s'.guards == s.guards[c := Some(t)]
    requires !HoldsGuard(s.pc[t]) && HoldsGuard(next) && next.c == c
    ensures GuardsHeld(s', u)
  {
  }

  lemma DropsGuard(s: State, s': State, t: Task, c: nat, next: Pc, u: Task)
    requires GuardsHeld(s, t) && GuardsHeld(s, u) && t in s.pc && s'.pc == s.pc[t := next]
    requires c < |s.guards| && s'.guards == s.guards[c := None]
    requires HoldsGuard(s.pc[t]) && s.pc[t].c == c && !HoldsGuard(next)
    ensures GuardsHeld(s', u)
  {
    assert s.guards[c] == Some(t);
  }

  /** The step of one task breaks no other task's hold on a lock. */
  lemma GuardsGo(s: State, t: Task, u: Task)
    requires Enabled(s, Go(t)) && GuardsHeld(s, t) && GuardsHeld(s, u)
    ensures GuardsHeld(Advance(s, t), u)
  {
    var s', pc, next := Advance(s, t), s.pc[t], Successor(s, t);
    if pc.WObtain? || pc.TObtain? || pc.SObtain? || pc.BObtain? {
      TakesGuard(s, s', t, pc.c, next, u);
    } else if HoldsGuard(pc) && !HoldsGuard(next) {
      DropsGuard(s, s', t, pc.c, next, u);
    } else {
      KeepsGuard(s, s', t, next, u);
    }
  }

  /** A mutex changes hands only with the task that takes or gives it back. */
  lemma KeepsMutex(s: State, s': State, t: Task, next: Pc, u: Task)
    requires t in s.pc && InBounds(s, s.pc[t]) && MutexHeld(s, t)
    requires u in s.pc && InBounds(s, s.pc[u]) && MutexHeld(s, u)
    requires s'.pc == s.pc[t := next] && |s'.rings| == |s.rings| && s'.mutexes == s.mutexes && InBounds(s, next)
    requires HoldsMutex(next) ==> HoldsMutex(s.pc[t]) && next.x == s.pc[t].x
    requires LacksMutex(next) ==> LacksMutex(s.pc[t]) && next.x == s.pc[t].x
    ensures InBounds(s', s'.pc[u]) && MutexHeld(s', u)
  {
  }

  lemma MovesMutex(s: State, s': State, t: Task, next: Pc, x: nat, u: Task)
    requires t in s.pc && u in s.pc && InBounds(s, s.pc[u]) && MutexHeld(s, u) && x < |s.mutexes|
    requires s'.pc == s.pc[t := next] && |s'.rings| == |s.rings| && InBounds(s, next)
    requires (s.mutexes[x] == Some(t) && s'.mutexes == s.mutexes[x := None] && next.WSleep? && next.x == x)
             || (s.mutexes[x] == None && s'.mutexes == s.mutexes[x := Some(t)] && next.Idle?)
    ensures InBounds(s', s'.pc[u]) && MutexHeld(s', u)
  {
  }

  lemma MutexGo(s: State, t: Task, u: Task)
    requires Enabled(s, Go(t)) && MutexHeld(s, t) && u in s.pc && InBounds(s, s.pc[u]) && MutexHeld(s, u)
    ensures InBounds(Advance(s, t), Advance(s, t).pc[u]) && MutexHeld(Advance(s, t), u)
  {
    var s' := Advance(s, t);
    if s.pc[t].WUnlock? || s.pc[t].WLock? {
      MovesMutex(s, s', t, Successor(s, t), s.pc[t].x, u);
    } else {
      KeepsMutex(s, s', t, Successor(s, t), u);
    }
  }

  lemma LocksStep(s: State, a: Action)
    requires forall t :: LocksHeld(s, t)
    ensures forall t :: LocksHeld(Next(s, a), t)
  {
    forall u
      ensures LocksHeld(Next(s, a), u)
    {
      assert LocksHeld(s, u) && LocksHeld(s, a.t);
      if Enabled(s, a) && a.Go? {
        GuardsGo(s, a.t, u);
        if u in s.pc {
          MutexGo(s, a.t, u);
        }
      }
    }
  }

  /** Locked sections and mutex steps, which neither enqueue, dequeue, signal nor wake. */
  predicate IsQuiet(pc: Pc) {
    || pc.WObtain? || pc.WRelease? || pc.WUnlock? || pc.WLock? || pc.TObtain? || pc.TRelease?
    || pc.SObtain? || pc.SEmpty? || pc.SRelease? || pc.BObtain?
  }

  lemma CountedQuiet(s: State, t: Task)
    requires Counted(s) && Enabled(s, Go(t)) && IsQuiet(s.pc[t])
    ensures Counted(Advance(s, t))
  {
    QuietStep(s, Advance(s, t), t, Successor(s, t));
  }

  lemma CountedDequeue(s: State, t: Task)
    requires Counted(s) && Enabled(s, Go(t)) && (s.pc[t].SPop? || s.pc[t].BLoop?)
    ensures Counted(Advance(s, t))
  {
    var s', c := Advance(s, t), s.pc[t].c;
    if s.rings[c] == [] {
      QuietStep(s, s', t, s'.pc[t]);
    } else {
      PopStep(s, s', t, c, s'.pc[t]);
    }
  }

  lemma CountedWait(s: State, t: Task)
    requires Counted(s) && Enabled(s, Go(t)) && (s.pc[t].WClear? || s.pc[t].WPush? || s.pc[t].WSleep?)
    ensures Counted(Advance(s, t))
  {
    var s', c := Advance(s, t), s.pc[t].c;
    if s.pc[t].WClear? {
      assert TaskOk(s, t);
      ClearIsQuiet(s, t);
      QuietStep(s, s', t, s'.pc[t]);
    } else if s.pc[t].WSleep? {
      WakeStep(s, s', t, s'.pc[t]);
    } else if |s.rings[c]| >= MAX_WAITERS {
      QuietStep(s, s', t, Panicked);
    } else {
      PushStep(s, s', t, c, s'.pc[t]);
    }
  }

  /** A timed wait goes to withdraw its entry and finds that a signaller has dequeued it since the wait
      last looked at its bit. */
  predicate Overtaken(s: State, a: Action) {
    Enabled(s, a) && a.Go? && s.pc[a.t].TRemove? && a.t !in s.rings[s.pc[a.t].c]
  }

  lemma CountedGo(s: State, t: Task)
    requires Counted(s) && Enabled(s, Go(t)) && !Overtaken(s, Go(t))
    ensures Counted(Advance(s, t))
  {
    if IsQuiet(s.pc[t]) {
      CountedQuiet(s, t);
    } else if s.pc[t].SPop? || s.pc[t].BLoop? {
      CountedDequeue(s, t);
    } else if s.pc[t].SSignal? || s.pc[t].BSignal? {
      SignalStep(s, Advance(s, t), t, s.pc[t].target, Successor(s, t));
    } else if s.pc[t].TRemove? {
      RemoveStep(s, Advance(s, t), t, s.pc[t].c, Successor(s, t));
    } else {
      CountedWait(s, t);
    }
  }

  /** The signal meant for a timed wait that has left stays behind. */
  lemma OvertakenLeavesToken(s: State, t: Task)
    requires Inv(s) && Overtaken(s, Go(t))
    ensures UnderWay(s, t) == 1 && Tokens(Next(s, Go(t)), t) >= 1 && !Awaiting(Next(s, Go(t)).pc[t])
  {
    var s', c := Next(s, Go(t)), s.pc[t].c;
    assert TaskOk(s, t);
    forall d | 0 <= d < |s.rings|
      ensures t !in s.rings[d]
    {
      assert t in s.rings[d] ==> WaitsOn(s, t, d);
    }
    TotalEmpty(s.rings, t);
    SignallersAt(s.pc, t, s'.pc[t], t);
  }

  /** A step keeps the invariant exactly when it is not a timed wait that has been overtaken. */
  lemma InvStep(s: State, a: Action)
    requires Inv(s)
    ensures Inv(Next(s, a)) <==> !Overtaken(s, a)
  {
    if Overtaken(s, a) {
      OvertakenLeavesToken(s, a.t);
      assert !TokenExact(Next(s, a), a.t);
      assert !TaskOk(Next(s, a), a.t);
    } else {
      LocksStep(s, a);
      if Enabled(s, a) {
        if a.Go? {
          CountedGo(s, a.t);
        } else {
          QuietStep(s, Next(s, a), a.t, Next(s, a).pc[a.t]);
        }
      }
    }
  }

  lemma InitInv(tasks: set<Task>, cvs: nat, mutexes: nat)
    ensures Inv(Init(tasks, cvs, mutexes))
  {
    var s := Init(tasks, cvs, mutexes);
    assert forall u :: u in s.pc ==> Target(s.pc[u]) == None;
    forall t
      ensures TaskOk(s, t) && LocksHeld(s, t)
    {
      assert Signallers(s.pc, t) == {};
      TotalEmpty(s.rings, t);
      TotalEmpty(s.pops, t);
    }
  }

  lemma SizesStep(s: State, a: Action)
    ensures Next(s, a).pc.Keys == s.pc.Keys && |Next(s, a).rings| == |s.rings| && |Next(s, a).mutexes| == |s.mutexes|
  {
  }

  /** No timed wait of the run is overtaken. */
  ghost predicate Punctual(tasks: set<Task>, cvs: nat, mutexes: nat, acts: seq<Action>) {
    forall i :: 0 <= i < |acts| ==> !Overtaken(Exec(Init(tasks, cvs, mutexes), acts[..i]), acts[i])
  }

  lemma PunctualFront(tasks: set<Task>, cvs: nat, mutexes: nat, acts: seq<Action>, n: nat)
    requires Punctual(tasks, cvs, mutexes, acts) && n <= |acts|
    ensures Punctual(tasks, cvs, mutexes, acts[..n])
  {
    forall i | 0 <= i < n
      ensures !Overtaken(Exec(Init(tasks, cvs, mutexes), acts[..n][..i]), acts[..n][i])
    {
      assert acts[..n][..i] == acts[..i];
    }
  }

  /** The invariant holds in every state of every punctual run. */
  lemma {:induction false} RunInv(tasks: set<Task>, cvs: nat, mutexes: nat, acts: seq<Action>)
    requires Punctual(tasks, cvs, mutexes, acts)
    ensures var s := Exec(Init(tasks, cvs, mutexes), acts);
            Inv(s) && s.pc.Keys == tasks && |s.rings| == cvs && |s.mutexes| == mutexes
  {
    if acts == [] {
      InitInv(tasks, cvs, mutexes);
    } else {
      var n := |acts| - 1;
      var s := Exec(Init(tasks, cvs, mutexes), acts[..n]);
      PunctualFront(tasks, cvs, mutexes, acts, n);
      RunInv(tasks, cvs, mutexes, acts[..n]);
      InvStep(s, acts[n]);
      SizesStep(s, acts[n]);
    }
  }

  /** A run has the invariant throughout exactly when none of its timed waits is overtaken. */
  lemma {:induction false} PunctualExact(tasks: set<Task>, cvs: nat, mutexes: nat, acts: seq<Action>)
    ensures Punctual(tasks, cvs, mutexes, acts)
            <==> forall n :: 0 <= n <= |acts| ==> Inv(Exec(Init(tasks, cvs, mutexes), acts[..n]))
  {
    var init := Init(tasks, cvs, mutexes);
    if Punctual(tasks, cvs, mutexes, acts) {
      forall n | 0 <= n <= |acts|
        ensures Inv(Exec(init, acts[..n]))
      {
        PunctualFront(tasks, cvs, mutexes, acts, n);
        RunInv(tasks, cvs, mutexes, acts[..n]);
      }
    }
    if forall n :: 0 <= n <= |acts| ==> Inv(Exec(init, acts[..n])) {
      forall i | 0 <= i < |acts|
        ensures !Overtaken(Exec(init, acts[..i]), acts[i])
      {
        assert Inv(Exec(init, acts[..i])) && Inv(Exec(init, acts[..i + 1]));
        assert acts[..i + 1] == acts[..i] + [acts[i]];
        ExecSnoc(init, acts[..i], acts[i]);
        InvStep(Exec(init, acts[..i]), acts[i]);
      }
    }
  }

  /** The run has no timed waits. */
  predicate Untimed(acts: seq<Action>) {
    forall i :: 0 <= i < |acts| && acts[i].CallWait? ==> !acts[i].timed
  }

  predicate TimedPc(pc: Pc) {
    pc.TObtain? || pc.TRemove? || ((HoldsMutex(pc) || pc.WSleep?) && pc.timed)
  }

  predicate NoneTimed(s: State) {
    forall t :: t in s.pc ==> !TimedPc(s.pc[t])
  }

  lemma UntimedStep(s: State, a: Action)
    requires NoneTimed(s) && (a.CallWait? ==> !a.timed)
    ensures NoneTimed(Next(s, a)) && !Overtaken(s, a)
  {
    if Enabled(s, a) && a.Go? {
      assert !TimedPc(s.pc[a.t]) && !TimedPc(Successor(s, a.t));
    }
  }

  lemma {:induction false} NeverTimed(tasks: set<Task>, cvs: nat, mutexes: nat, acts: seq<Action>)
    requires Untimed(acts)
    ensures NoneTimed(Exec(Init(tasks, cvs, mutexes), acts))
  {
    if acts != [] {
      NeverTimed(tasks, cvs, mutexes, acts[..|acts| - 1]);
      UntimedStep(Exec(Init(tasks, cvs, mutexes), acts[..|acts| - 1]), acts[|acts| - 1]);
    }
  }

  /** In particular, a run that uses only wait, signal and broadcast is punctual. */
  lemma {:induction false} UntimedPunctual(tasks: set<Task>, cvs: nat, mutexes: nat, acts: seq<Action>)
    requires Untimed(acts)
    ensures Punctual(tasks, cvs, mutexes, acts)
  {
    forall i | 0 <= i < |acts|
      ensures !Overtaken(Exec(Init(tasks, cvs, mutexes), acts[..i]), acts[i])
    {
      NeverTimed(tasks, cvs, mutexes, acts[..i]);
      UntimedStep(Exec(Init(tasks, cvs, mutexes), acts[..i]), acts[i]);
    }
  }

  lemma ExecSnoc(s: State, acts: seq<Action>, a: Action)
    ensures Exec(s, acts + [a]) == Next(Exec(s, acts), a)
  {
    assert (acts + [a])[..|acts|] == acts;
  }

  // ---- What callers may rely on ------------------------------------------

  /** Exactly-once wakeup: in every punctual run, a task between enqueue and wake has exactly one token over all
      condition variables and every other task none; each task was woken as often as it was dequeued
      anywhere, up to signals under way; and each condition variable dequeues its waiters in the order in
      which they were enqueued. */
  lemma {:induction false} ExactlyOnceWakeup(tasks: set<Task>, cvs: nat, mutexes: nat, acts: seq<Action>, t: Task)
    requires Punctual(tasks, cvs, mutexes, acts)
    ensures var s := Exec(Init(tasks, cvs, mutexes), acts);
            && Tokens(s, t) == (if t in s.pc && Awaiting(s.pc[t]) then 1 else 0)
            && Total(s.pops, t) == multiset(s.wakes)[t] + UnderWay(s, t)
            && Shape(s) && Fifo(s)
  {
    RunInv(tasks, cvs, mutexes, acts);
    assert TaskOk(Exec(Init(tasks, cvs, mutexes), acts), t);
  }

  /** No crosstalk: although all condition variables share a task's signal bit, a task is queued at, and
      signalled from, only the one it is waiting on. */
  lemma {:induction false} NoCrosstalk(tasks: set<Task>, cvs: nat, mutexes: nat, acts: seq<Action>,
                                       t: Task, u: Task, c: nat)
    requires Punctual(tasks, cvs, mutexes, acts)
    ensures var s := Exec(Init(tasks, cvs, mutexes), acts);
            && (c < |s.rings| && t in s.rings[c] ==> WaitsOn(s, t, c))
            && (u in s.pc && Target(s.pc[u]) == Some(t) ==> WaitsOn(s, t, s.pc[u].c))
            && (t in s.bits ==> t in s.pc && Awaiting(s.pc[t]))
  {
    RunInv(tasks, cvs, mutexes, acts);
    assert TaskOk(Exec(Init(tasks, cvs, mutexes), acts), t);
  }

  lemma SleeperOwed(s: State, t: Task)
    requires TaskOk(s, t) && t in s.pc && s.pc[t].WSleep? && s.pc[t].c < |s.rings|
    requires t !in s.rings[s.pc[t].c] && Signallers(s.pc, t) == {}
    ensures t in s.bits
  {
    forall c | 0 <= c < |s.rings|
      ensures t !in s.rings[c]
    {
      assert t in s.rings[c] ==> WaitsOn(s, t, c);
    }
    TotalEmpty(s.rings, t);
  }

  /** No wakeup is lost: a sleeper that is neither queued at its condition variable nor about to be
      signalled can run. */
  lemma {:induction false} NoLostWakeup(tasks: set<Task>, cvs: nat, mutexes: nat, acts: seq<Action>, t: Task)
    requires Punctual(tasks, cvs, mutexes, acts)
    ensures var s := Exec(Init(tasks, cvs, mutexes), acts);
            t in s.pc && s.pc[t].WSleep? ==> (
              && s.pc[t].c < |s.rings|
              && (t !in s.rings[s.pc[t].c] && Signallers(s.pc, t) == {} ==> Enabled(s, Go(t))))
  {
    RunInv(tasks, cvs, mutexes, acts);
    var s := Exec(Init(tasks, cvs, mutexes), acts);
    assert TaskOk(s, t) && LocksHeld(s, t);
    if t in s.pc && s.pc[t].WSleep? && t !in s.rings[s.pc[t].c] && Signallers(s.pc, t) == {} {
      SleeperOwed(s, t);
    }
  }

  /** The locked sections of one condition variable exclude each other, and whoever is in one can always
      go on to leave it. */
  lemma {:induction false} GuardExclusive(tasks: set<Task>, cvs: nat, mutexes: nat, acts: seq<Action>, t: Task, u: Task)
    requires Punctual(tasks, cvs, mutexes, acts)
    ensures var s := Exec(Init(tasks, cvs, mutexes), acts);
            && (t in s.pc && u in s.pc && HoldsGuard(s.pc[t]) && HoldsGuard(s.pc[u]) && s.pc[t].c == s.pc[u].c ==>
                  t == u)
            && (forall c :: 0 <= c < |s.guards| && s.guards[c] == Some(t) ==>
                  t in s.pc && HoldsGuard(s.pc[t]) && Enabled(s, Go(t)))
  {
    RunInv(tasks, cvs, mutexes, acts);
    var s := Exec(Init(tasks, cvs, mutexes), acts);
    assert LocksHeld(s, t) && LocksHeld(s, u);
    if t in s.pc && u in s.pc && HoldsGuard(s.pc[t]) && HoldsGuard(s.pc[u]) && s.pc[t].c == s.pc[u].c {
      assert s.guards[s.pc[t].c] == Some(t);
    }
  }

  /** Releasing the mutex and starting to wait are one step for whoever takes the mutex next: a
      caller of wait that no longer holds the mutex is enqueued or already chosen. */
  lemma {:induction false} ReleaseAndWaitAtomic(tasks: set<Task>, cvs: nat, mutexes: nat, acts: seq<Action>, t: Task)
    requires Punctual(tasks, cvs, mutexes, acts)
    ensures var s := Exec(Init(tasks, cvs, mutexes), acts);
            t in s.pc && (HoldsMutex(s.pc[t]) || s.pc[t].WSleep?) ==> (
              && s.pc[t].x < |s.mutexes|
              && (s.mutexes[s.pc[t].x] != Some(t) ==> s.pc[t].WSleep? && Tokens(s, t) == 1))
  {
    RunInv(tasks, cvs, mutexes, acts);
    assert TaskOk(Exec(Init(tasks, cvs, mutexes), acts), t) && LocksHeld(Exec(Init(tasks, cvs, mutexes), acts), t);
  }
}
