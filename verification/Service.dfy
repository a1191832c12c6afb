/** What the engine owes its callers over whole runs: it stops when, and only when, somebody has asked it
    to; it sleeps when it has nothing to do; and every call can be made and completed. */
module Service {
  import opened Wrappers
  import opened Ipc
  import opened SocketSpec
  import opened ReplySlots
  import opened Rpc
  import opened RpcSafety
  import opened RpcFrames
  import opened Linearizability
  import opened Progress

  // ---- The shutdown flag -------------------------------------------------

  /** A shutdown request has been dispatched. */
  predicate ShutdownServed(s: State) {
    exists i :: 0 <= i < |s.log| && s.log[i].req.body.Shutdown?
  }

  predicate FlagRight(s: State) {
    && (s.shutdown <==> ShutdownServed(s))
    && (s.engine.Stopped? ==> s.shutdown) && (s.engine.AtWait? ==> !s.shutdown)
  }

  lemma FlagDispatch(s: State)
    requires FlagRight(s)
    ensures FlagRight(DoDispatch(s))
  {
    var s' := DoDispatch(s);
    if s.engine.Holding? && s.engine.m in s.mem {
      assert s'.log[|s.log|].req == s.mem[s.engine.m].req;
      assert forall i :: 0 <= i < |s.log| ==> s'.log[i] == s.log[i];
    }
  }

  /** Only a look at the flag stops the engine, or sends it to sleep. */
  lemma FlagKept(s: State, a: Action)
    requires IsEngine(a) && !a.Dispatch?
    ensures var s' := Move(s, a);
            && s'.log == s.log && s'.shutdown == s.shutdown
            && (s'.engine.Stopped? ==> s.engine.Stopped? || s.shutdown)
            && (s'.engine.AtWait? ==> s.engine.AtWait? || !s.shutdown)
  {
    if a.Check? {
      CheckFrame(s);
    } else if a.Wait? {
      WaitFrame(s);
    } else if a.Get? {
      GetFrame(s);
    } else {
      ReplyFrame(s);
    }
  }

  lemma FlagStep(s: State, a: Action)
    requires FlagRight(s)
    ensures FlagRight(Next(s, a))
  {
    if a.Dispatch? {
      FlagDispatch(s);
    } else if IsEngine(a) {
      FlagKept(s, a);
    } else {
      ClientFrame(s, a);
    }
  }

  /** In every run the flag is set exactly when a shutdown request has been dispatched, and the engine has
      not stopped, nor goes to sleep, otherwise. */
  lemma {:induction false} FlagExact(tasks: set<Task>, run: seq<Action>)
    ensures FlagRight(After(tasks, run))
  {
    if run != [] {
      var n := |run| - 1;
      FlagExact(tasks, run[..n]);
      FlagStep(After(tasks, run[..n]), run[n]);
      assert run == run[..n] + [run[n]];
      AfterOne(tasks, run[..n], run[n]);
    }
  }

  // ---- Nobody asks, nobody stops -----------------------------------------

  /** No caller asks for shutdown. */
  predicate NobodyAsks(run: seq<Action>) {
    forall i :: 0 <= i < |run| && run[i].Begin? ==> !run[i].req.body.Shutdown?
  }

  predicate NoShutdown(s: State) {
    && (forall m :: m in s.mem ==> !s.mem[m].req.body.Shutdown?)
    && (forall i :: 0 <= i < |s.log| ==> !s.log[i].req.body.Shutdown?)
  }

  lemma AnswerKind(t: Table, q: Req)
    requires !q.body.Shutdown?
    ensures !Step(t, q).1.body.Shutdown?
  {
  }

  lemma NoShutdownDispatch(s: State)
    requires NoShutdown(s)
    ensures NoShutdown(DoDispatch(s))
  {
    if s.engine.Holding? && s.engine.m in s.mem {
      AnswerKind(s.table, s.mem[s.engine.m].req);
    }
  }

  /** No message other than a new one says anything new. */
  predicate SaysNothingNew(s: State, s': State) {
    s'.log == s.log && forall m :: m in s'.mem ==> m in s.mem && s'.mem[m].req == s.mem[m].req
  }

  lemma PassedOn(s: State, s': State)
    requires NoShutdown(s) && SaysNothingNew(s, s')
    ensures NoShutdown(s')
  {
  }

  lemma NothingNew(s: State, a: Action)
    requires !a.Begin? && !a.Dispatch?
    ensures SaysNothingNew(s, Move(s, a))
  {
    if IsEngine(a) {
      EngineSaysNothing(s, a);
    } else {
      ClientFrame(s, a);
    }
  }

  lemma EngineSaysNothing(s: State, a: Action)
    requires IsEngine(a) && !a.Dispatch?
    ensures SaysNothingNew(s, Move(s, a))
  {
    if a.Check? {
      CheckFrame(s);
    } else if a.Wait? {
      WaitFrame(s);
    } else if a.Get? {
      GetFrame(s);
    } else {
      ReplyFrame(s);
    }
  }

  lemma NoShutdownStep(s: State, a: Action)
    requires NoShutdown(s) && (a.Begin? ==> !a.req.body.Shutdown?)
    ensures NoShutdown(Next(s, a))
  {
    if a.Dispatch? {
      NoShutdownDispatch(s);
    } else if a.Begin? {
      ClientFrame(s, a);
    } else {
      NothingNew(s, a);
      PassedOn(s, Move(s, a));
    }
  }

  lemma {:induction false} NeverAsked(tasks: set<Task>, run: seq<Action>)
    requires NobodyAsks(run)
    ensures NoShutdown(After(tasks, run))
  {
    if run != [] {
      var n := |run| - 1;
      NeverAsked(tasks, run[..n]);
      NoShutdownStep(After(tasks, run[..n]), run[n]);
      assert run == run[..n] + [run[n]];
      AfterOne(tasks, run[..n], run[n]);
    }
  }

  /** While nobody has asked for shutdown the engine does not stop, and every request that is put is
      guaranteed its answer. */
  lemma {:induction false} ServesForEver(tasks: set<Task>, run: seq<Action>, t: Task)
    requires NobodyAsks(run)
    ensures var s := After(tasks, run);
            && !s.shutdown && !s.engine.Stopped?
            && (In(s, t, Ported) ==>
                  Guaranteed(tasks, run + [Put(t)], t, s.pc[t].m, 3 + 3 * |s.request| + Distance(s.engine)))
  {
    NeverAsked(tasks, run);
    FlagExact(tasks, run);
    AnsweredFromPut(tasks, run, t);
  }

  // ---- Asked, it stops ---------------------------------------------------

  /** The engine's own steps until it stops, once the flag is set. */
  function StepsToStop(s: State): nat {
    match s.engine
    case AtCheck => 1
    case AtGet => 2 + 3 * |s.request|
    case Replying(_) => 3 + 3 * |s.request|
    case Holding(_) => 4 + 3 * |s.request|
    case AtWait => 0
    case Stopped => 0
  }

  predicate Reachable(s: State) {
    && (s.engine.Holding? || s.engine.Replying? ==> s.engine.m in s.mem)
    && (s.engine.Replying? ==> s.mem[s.engine.m].replyPort in s.ports)
    && (s.request != [] ==> s.request[0] in s.mem)
  }

  lemma IsReachable(s: State)
    requires Placed(s)
    ensures Reachable(s)
  {
    QueuedInMem(s);
    if s.engine.Replying? {
      ReplyPortEmpty(s);
    }
  }

  lemma NearerToStop(s: State)
    requires Reachable(s) && s.shutdown && !s.engine.Stopped? && !s.engine.AtWait?
    ensures var s' := Next(s, EngineAction(s.engine)); s'.shutdown && StepsToStop(s') < StepsToStop(s)
  {
    match s.engine
    case AtCheck =>
    case AtGet =>
    case Holding(m) => assert DoDispatch(s).engine == Replying(m) && DoDispatch(s).request == s.request;
    case Replying(m) => assert DoReply(s).engine == AtGet && DoReply(s).request == s.request;
    case _ =>
  }

  /** Once a shutdown request has been dispatched, the engine, left to itself, stops. */
  lemma {:induction false} StopsWhenAsked(tasks: set<Task>, run: seq<Action>) returns (more: seq<Action>)
    requires ShutdownServed(After(tasks, run))
    ensures OnlyEngine(more) && After(tasks, run + more).engine.Stopped?
    decreases StepsToStop(After(tasks, run))
  {
    var s := After(tasks, run);
    FlagExact(tasks, run);
    if s.engine.Stopped? {
      assert run + [] == run;
      return [];
    }
    var a := EngineAction(s.engine);
    RunInv(tasks, run);
    IsReachable(s);
    NearerToStop(s);
    AfterOne(tasks, run, a);
    FlagExact(tasks, run + [a]);
    more := StopsWhenAsked(tasks, run + [a]);
    Regroup(run, a, more);
    more := [a] + more;
  }

  // ---- Nothing to do, it sleeps ------------------------------------------

  /** How often the engine has come out of Wait. */
  function Wakings(tasks: set<Task>, run: seq<Action>): nat {
    if run == [] then 0
    else
      var n := |run| - 1;
      Wakings(tasks, run[..n]) + One(run[n].Wait? && Effective(After(tasks, run[..n]), run[n]))
  }

  /** Only a PutMsg sets the signal, and Wait clears it. */
  lemma ClientSignal(s: State, a: Action)
    requires !IsEngine(a)
    ensures var s' := Move(s, a); One(s'.signal) + |s.puts| <= One(s.signal) + |s'.puts|
  {
    if a.Begin? {
      BeginFrame(s, a.t, a.m, a.req);
    } else if a.EnsurePort? {
      EnsurePortFrame(s, a.t, a.alloc);
    } else if a.Receive? {
      ReceiveFrame(s, a.t);
    }
  }

  lemma EngineSignal(s: State, a: Action)
    requires IsEngine(a)
    ensures var s' := Move(s, a);
            s'.puts == s.puts && One(a.Wait? && Effective(s, a)) + One(s'.signal) <= One(s.signal)
  {
    EngineFrame(s, a);
    if a.Check? {
      CheckFrame(s);
    } else if a.Get? {
      GetFrame(s);
    } else if a.Dispatch? {
      DispatchFrame(s);
    } else if a.Reply? {
      ReplyFrame(s);
    }
  }

  lemma WakingStep(s: State, a: Action)
    ensures var s' := Next(s, a);
            One(a.Wait? && Effective(s, a)) + One(s'.signal) + |s.puts| <= One(s.signal) + |s'.puts|
  {
    if IsEngine(a) {
      EngineSignal(s, a);
    } else {
      ClientSignal(s, a);
    }
  }

  /** The engine comes out of Wait at most once per request that was put: it does not spin. */
  lemma {:induction false} NoBusyLoop(tasks: set<Task>, run: seq<Action>)
    ensures Wakings(tasks, run) + One(After(tasks, run).signal) <= |After(tasks, run).puts|
  {
    if run != [] {
      var n := |run| - 1;
      NoBusyLoop(tasks, run[..n]);
      WakingStep(After(tasks, run[..n]), run[n]);
      assert run == run[..n] + [run[n]];
      AfterOne(tasks, run[..n], run[n]);
    }
  }
}
