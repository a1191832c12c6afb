/** What happens when a timed wait is overtaken: a signal dequeues it after its last look at the signal bit
    and before it withdraws its entry. */
module TimedWait {
  import opened Wrappers
  import opened CvProtocol

  /** The wait returns as timed out and leaves a token behind. Where the next wait of the task clears its
      bit, that token is gone exactly if its Signal has been sent by then; otherwise it will come in the
      middle of the new wait. */
  lemma LeftoverAtNextWait(s: State, t: Task)
    requires Enabled(s, Go(t)) && s.pc[t].WClear? && Tokens(s, t) == 1
    ensures TokenExact(Next(s, Go(t)), t) <==> t in s.bits
  {
    SignallersAt(s.pc, t, Successor(s, t), t);
  }

  // ---- A run with a spurious wakeup --------------------------------------

  /** What the run depends on: where `t` and `u` are, the ring, the guard and the mutex, and the bit of `t`. */
  datatype Scene = Scene(pt: Pc, pu: Pc, ring: seq<Task>, guard: Option<Task>, mutex: Option<Task>, bit: bool)

  /** The two tasks, the condition variable and the mutex. */
  datatype Cast = Cast(t: Task, u: Task, c: nat, x: nat)

  predicate Shows(s: State, k: Cast, v: Scene) {
    && Shape(s) && k.c < |s.rings| && k.x < |s.mutexes| && k.t != k.u && k.t in s.pc && k.u in s.pc
    && s.pc[k.t] == v.pt && s.pc[k.u] == v.pu && s.rings[k.c] == v.ring
    && s.guards[k.c] == v.guard && s.mutexes[k.x] == v.mutex && (k.t in s.bits <==> v.bit)
  }

  /** `t` takes its next step, from scene `v` to scene `w`. */
  predicate WaiterGoes(k: Cast, v: Scene, w: Scene) {
    match v.pt
    case WClear(c, x, timed) => w == v.(pt := WObtain(c, x, timed), bit := false)
    case WObtain(c, x, timed) => v.guard == None && w == v.(pt := WPush(c, x, timed), guard := Some(k.t))
    case WPush(c, x, timed) => |v.ring| < MAX_WAITERS && w == v.(pt := WRelease(c, x, timed), ring := v.ring + [k.t])
    case WRelease(c, x, timed) => w == v.(pt := WUnlock(c, x, timed), guard := None)
    case WUnlock(c, x, timed) => w == v.(pt := WSleep(c, x, timed), mutex := None)
    case WSleep(c, x, _) => v.bit && w == v.(pt := WLock(c, x), bit := false)
    case TObtain(c, x) => v.guard == None && w == v.(pt := TRemove(c, x), guard := Some(k.t))
    case TRemove(c, x) => w == v.(pt := TRelease(c, x), ring := Without(v.ring, k.t))
    case TRelease(c, x) => w == v.(pt := WLock(c, x), guard := None)
    case WLock(c, x) => v.mutex == None && w == v.(pt := Idle, mutex := Some(k.t))
    case _ => false
  }

  /** `u` takes its next step in a signal. */
  predicate SignallerGoes(k: Cast, v: Scene, w: Scene) {
    match v.pu
    case SObtain(c) => v.guard == None && w == v.(pu := SPop(c), guard := Some(k.u))
    case SPop(c) => v.ring != [] && w == v.(pu := SRelease(c, v.ring[0]), ring := v.ring[1..])
    case SRelease(c, y) => w == v.(pu := SSignal(c, y), guard := None)
    case SSignal(_, y) => y == k.t && w == v.(pu := Idle, bit := true)
    case _ => false
  }

  /** A task enters a call, `t` takes the mutex, or its time runs out. */
  predicate Enters(k: Cast, v: Scene, a: Action, w: Scene) {
    match a
    case Lock(y, m) => y == k.t && m == k.x && v.pt == Idle && v.mutex == None && w == v.(mutex := Some(k.t))
    case CallWait(y, c, m, timed) =>
      y == k.t && c == k.c && m == k.x && v.pt == Idle && v.mutex == Some(k.t) && w == v.(pt := WClear(c, m, timed))
    case CallSignal(y, c) => y == k.u && c == k.c && v.pu == Idle && w == v.(pu := SObtain(c))
    case Expire(y) => y == k.t && v.pt.WSleep? && v.pt.timed && w == v.(pt := TObtain(v.pt.c, v.pt.x))
    case _ => false
  }

  predicate AtHome(k: Cast, v: Scene) {
    (InWait(v.pt) ==> v.pt.c == k.c && v.pt.x == k.x) && (!v.pu.Idle? && !v.pu.Panicked? ==> v.pu.c == k.c)
  }

  predicate Follows(k: Cast, v: Scene, a: Action, w: Scene) {
    AtHome(k, v) && (
      || (a == Go(k.t) && WaiterGoes(k, v, w))
      || (a == Go(k.u) && k.u != k.t && !InWait(v.pu) && SignallerGoes(k, v, w))
      || Enters(k, v, a, w))
  }

  lemma WaiterStep(s: State, k: Cast, v: Scene, w: Scene)
    requires Shows(s, k, v) && AtHome(k, v) && WaiterGoes(k, v, w)
    ensures Shows(Next(s, Go(k.t)), k, w)
  {
    var next := Successor(s, k.t);
    assert next == w.pt;
  }

  lemma SignallerStep(s: State, k: Cast, v: Scene, w: Scene)
    requires Shows(s, k, v) && AtHome(k, v) && SignallerGoes(k, v, w)
    ensures Shows(Next(s, Go(k.u)), k, w)
  {
    var next := Successor(s, k.u);
    assert next == w.pu;
  }

  lemma EnterStep(s: State, k: Cast, v: Scene, a: Action, w: Scene)
    requires Shows(s, k, v) && Enters(k, v, a, w)
    ensures Shows(Next(s, a), k, w)
  {
  }

  lemma FollowStep(s: State, k: Cast, v: Scene, a: Action, w: Scene)
    requires Shows(s, k, v) && Follows(k, v, a, w)
    ensures Shows(Next(s, a), k, w)
  {
    if Enters(k, v, a, w) {
      EnterStep(s, k, v, a, w);
    } else if a == Go(k.t) {
      WaiterStep(s, k, v, w);
    } else {
      SignallerStep(s, k, v, w);
    }
  }

  const LENGTH: nat := 24

  /** `t` waits with a time limit; `u` dequeues it and is about to signal it; the time runs out, `t` finds
      nothing to withdraw, leaves, and waits again; the signal then wakes it from the second wait. */
  function ActionAt(k: Cast, i: nat): Action {
    if i == 0 then Lock(k.t, k.x)
    else if i == 1 then CallWait(k.t, k.c, k.x, true)
    else if i < 7 then Go(k.t)
    else if i == 7 then CallSignal(k.u, k.c)
    else if i < 11 then Go(k.u)
    else if i == 11 then Expire(k.t)
    else if i < 16 then Go(k.t)
    else if i == 16 then CallWait(k.t, k.c, k.x, false)
    else if i < 22 then Go(k.t)
    else if i == 22 then Go(k.u)
    else Go(k.t)
  }

  function LateSignalRun(k: Cast): seq<Action> {
    seq(LENGTH, i => if i < 0 then Go(k.t) else ActionAt(k, i))
  }

  /** The `i`-th scene of entering a wait: clear, obtain, push, release, unlock, sleep. */
  function Entering(k: Cast, i: nat, timed: bool, pu: Pc): Scene {
    if i == 0 then Scene(WClear(k.c, k.x, timed), pu, [], None, Some(k.t), false)
    else if i == 1 then Scene(WObtain(k.c, k.x, timed), pu, [], None, Some(k.t), false)
    else if i == 2 then Scene(WPush(k.c, k.x, timed), pu, [], Some(k.t), Some(k.t), false)
    else if i == 3 then Scene(WRelease(k.c, k.x, timed), pu, [k.t], Some(k.t), Some(k.t), false)
    else if i == 4 then Scene(WUnlock(k.c, k.x, timed), pu, [k.t], None, Some(k.t), false)
    else Scene(WSleep(k.c, k.x, timed), pu, [k.t], None, None, false)
  }

  function SceneAt(k: Cast, i: nat): Scene {
    var asleep, late := WSleep(k.c, k.x, true), SSignal(k.c, k.t);
    if i == 0 then Scene(Idle, Idle, [], None, None, false)
    else if i == 1 then Scene(Idle, Idle, [], None, Some(k.t), false)
    else if i < 8 then Entering(k, i - 2, true, Idle)
    else if i == 8 then Scene(asleep, SObtain(k.c), [k.t], None, None, false)
    else if i == 9 then Scene(asleep, SPop(k.c), [k.t], Some(k.u), None, false)
    else if i == 10 then Scene(asleep, SRelease(k.c, k.t), [], Some(k.u), None, false)
    else if i == 11 then Scene(asleep, late, [], None, None, false)
    else if i == 12 then Scene(TObtain(k.c, k.x), late, [], None, None, false)
    else if i == 13 then Scene(TRemove(k.c, k.x), late, [], Some(k.t), None, false)
    else if i == 14 then Scene(TRelease(k.c, k.x), late, [], Some(k.t), None, false)
    else if i == 15 then Scene(WLock(k.c, k.x), late, [], None, None, false)
    else if i == 16 then Scene(Idle, late, [], None, Some(k.t), false)
    else if i < 23 then Entering(k, i - 17, false, late)
    else if i == 23 then Scene(WSleep(k.c, k.x, false), Idle, [k.t], None, None, true)
    else Scene(WLock(k.c, k.x), Idle, [k.t], None, None, false)
  }

  lemma EnteringFollows(k: Cast, i: nat, timed: bool, pu: Pc)
    requires i < 5 && k.t != k.u && (!pu.Idle? && !pu.Panicked? ==> pu.c == k.c)
    ensures Follows(k, Entering(k, i, timed, pu), Go(k.t), Entering(k, i + 1, timed, pu))
  {
  }

  lemma SceneFollows(k: Cast, i: nat)
    requires i < LENGTH && k.t != k.u
    ensures Follows(k, SceneAt(k, i), ActionAt(k, i), SceneAt(k, i + 1))
  {
    if 2 <= i < 7 {
      EnteringFollows(k, i - 2, true, Idle);
    } else if 17 <= i < 22 {
      EnteringFollows(k, i - 17, false, SSignal(k.c, k.t));
    }
  }

  lemma {:induction false} RunShows(init: State, k: Cast, n: nat)
    requires n <= LENGTH && k.t != k.u && Shows(init, k, SceneAt(k, 0))
    ensures Shows(Exec(init, LateSignalRun(k)[..n]), k, SceneAt(k, n))
  {
    var run := LateSignalRun(k);
    if n == 0 {
      assert run[..0] == [];
    } else {
      RunShows(init, k, n - 1);
      SceneFollows(k, n - 1);
      FollowStep(Exec(init, run[..n - 1]), k, SceneAt(k, n - 1), run[n - 1], SceneAt(k, n));
      assert run[..n] == run[..n - 1] + [run[n - 1]];
      ExecSnoc(init, run[..n - 1], run[n - 1]);
    }
  }

  lemma OvertakenAt(init: State, k: Cast, n: nat)
    requires n == 13 && k.t != k.u && Shows(init, k, SceneAt(k, 0))
    ensures Overtaken(Exec(init, LateSignalRun(k)[..n]), LateSignalRun(k)[n])
  {
    RunShows(init, k, n);
    assert LateSignalRun(k)[n] == ActionAt(k, n) == Go(k.t);
  }

  lemma WokenWhileQueued(init: State, k: Cast, n: nat)
    requires n == LENGTH && k.t != k.u && Shows(init, k, SceneAt(k, 0))
    ensures var s := Exec(init, LateSignalRun(k));
            k.t in s.pc && s.pc[k.t].WLock? && k.c < |s.rings| && k.t in s.rings[k.c]
  {
    RunShows(init, k, n);
    assert LateSignalRun(k)[..n] == LateSignalRun(k);
  }

  lemma AtFirst(tasks: set<Task>, cvs: nat, mutexes: nat, k: Cast)
    requires k.t in tasks && k.u in tasks && k.t != k.u && k.c < cvs && k.x < mutexes
    ensures Shows(Init(tasks, cvs, mutexes), k, SceneAt(k, 0))
  {
  }

  /** With any two tasks, at any condition variable, a timed wait can be overtaken, and the signal it
      misses can wake the task from its next wait while it is still queued there. */
  lemma {:induction false} SpuriousWakeup(tasks: set<Task>, cvs: nat, mutexes: nat, k: Cast)
    requires k.t in tasks && k.u in tasks && k.t != k.u && k.c < cvs && k.x < mutexes
    ensures !Punctual(tasks, cvs, mutexes, LateSignalRun(k))
    ensures var s := Exec(Init(tasks, cvs, mutexes), LateSignalRun(k));
            k.t in s.pc && s.pc[k.t].WLock? && k.c < |s.rings| && k.t in s.rings[k.c]
  {
    AtFirst(tasks, cvs, mutexes, k);
    OvertakenAt(Init(tasks, cvs, mutexes), k, 13);
    WokenWhileQueued(Init(tasks, cvs, mutexes), k, LENGTH);
  }
}
