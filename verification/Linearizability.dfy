/** What the message protocol guarantees over whole runs. */
module Linearizability {
  import opened Ipc
  import opened SocketSpec
  import opened Wrappers
  import opened ReplySlots
  import opened Rpc
  import opened RpcSafety
  import opened RpcFrames
  import Runs

  ghost predicate Inv(s: State) {
    Placed(s) && Valued(s) && Ordered(s)
  }

  // ---- Each action keeps the invariant -----------------------------------

  lemma OwnersHold(s: State)
    requires Placed(s)
    ensures Owners(s)
  {
  }

  /** Until it is put, a message is with its sender, unanswered. */
  lemma StillMine(s: State, t: Task, stage: Stage)
    requires Placed(s) && Valued(s) && In(s, t, stage) && stage != Waiting
    ensures var m := s.pc[t].m;
            && s.mem[m].sender == t && s.mem[m].place == WithSender && s.mem[m].req == s.mem[m].asked
            && m !in s.request && s.engine != Holding(m)
  {
  }

  lemma QueuedInMem(s: State)
    requires Placed(s)
    ensures forall i :: 0 <= i < |s.request| ==> s.request[i] in s.mem && s.mem[s.request[i]].place == OnRequestPort
    ensures s.engine.Holding? ==> s.engine.m in s.mem && s.mem[s.engine.m].place == AtEngine
    ensures s.engine.Replying? ==> s.engine.m in s.mem && s.mem[s.engine.m].place == Answered
  {
    forall i | 0 <= i < |s.request|
      ensures s.request[i] in s.mem && s.mem[s.request[i]].place == OnRequestPort
    {
      assert MsgPlaced(s, s.request[i]) && s.request[i] in s.request;
    }
    if s.engine.Holding? || s.engine.Replying? {
      assert MsgPlaced(s, s.engine.m);
    }
  }

  // What single steps leave alone, whatever the rest of the state.

  /** Queued messages, and the one the engine holds, exist. */
  predicate QueueThere(s: State) {
    (forall i :: 0 <= i < |s.request| ==> s.request[i] in s.mem) && (s.engine.Holding? ==> s.engine.m in s.mem)
  }

  lemma BeginSame(s: State, t: Task, m: MsgId, req: Req)
    requires QueueThere(s)
    ensures SameQueue(s, DoBegin(s, t, m, req))
  {
  }

  lemma ReceiveSame(s: State, t: Task)
    requires QueueThere(s) && In(s, t, Waiting) && s.pc[t].m !in s.request && s.engine != Holding(s.pc[t].m)
    ensures SameQueue(s, DoReceive(s, t))
  {
  }

  lemma CheckSame(s: State, e: EnginePc)
    requires e == DoCheck(s).engine
    ensures SameAnswers(s, DoCheck(s))
  {
    assert DoCheck(s) == s.(engine := e);
  }

  lemma WaitSame(s: State, e: EnginePc, signal: bool)
    requires e == DoWait(s).engine && signal == DoWait(s).signal
    ensures SameAnswers(s, DoWait(s))
  {
    assert DoWait(s) == s.(engine := e, signal := signal);
  }

  lemma GetSame(s: State, s': State)
    requires s' == DoGet(s)
    requires s.request != [] && s.request[0] in s.mem ==> !IsDone(s.mem[s.request[0]])
    ensures SameAnswers(s, s')
  {
    assert s' == s.(engine := s'.engine, drained := s'.drained, request := s'.request, mem := s'.mem);
    assert s'.mem == s.mem
        || (s.request != [] && s'.mem == s.mem[s.request[0] := s.mem[s.request[0]].(place := AtEngine)]);
  }

  lemma ReplySame(s: State)
    requires QueueThere(s) && (s.engine.Replying? && s.engine.m in s.mem ==> s.mem[s.engine.m].place == Answered)
    ensures SameAnswers(s, DoReply(s)) && SameQueue(s, DoReply(s))
  {
  }

  lemma InvBegin(s: State, t: Task, m: MsgId, req: Req)
    requires Inv(s)
    ensures Valued(DoBegin(s, t, m, req)) && Ordered(DoBegin(s, t, m, req))
  {
    OwnersHold(s);
    QueuedInMem(s);
    BeginSame(s, t, m, req);
    ValuedBegin(s, t, m, req);
    OrderedQuiet(s, DoBegin(s, t, m, req));
  }

  lemma InvEnsurePort(s: State, t: Task, alloc: Option<PortId>)
    requires Inv(s)
    ensures Valued(DoEnsurePort(s, t, alloc)) && Ordered(DoEnsurePort(s, t, alloc))
  {
    if In(s, t, Begun) {
      StillMine(s, t, Begun);
      OwnersHold(s);
      ValuedEnsurePort(s, t, alloc);
      OrderedEnsurePort(s, t, alloc);
    }
  }

  lemma OrderedEnsurePort(s: State, t: Task, alloc: Option<PortId>)
    requires Placed(s) && Ordered(s) && In(s, t, Begun) && s.pc[t].m !in s.request && s.engine != Holding(s.pc[t].m)
    ensures Ordered(DoEnsurePort(s, t, alloc))
  {
    QueuedInMem(s);
    if alloc.Some? ==> alloc.value !in s.ports {
      var p := Ensure(s.slots, t, alloc).1;
      if p.None? {
        OrderedGiveUp(s, t, DoEnsurePort(s, t, alloc));
      } else {
        OrderedGotPort(s, DoEnsurePort(s, t, alloc));
      }
    }
  }

  /** The message given back is not in the engine's hands. */
  lemma OrderedGiveUp(s: State, t: Task, s': State)
    requires Ordered(s) && In(s, t, Begun) && s.pc[t].m !in s.request && s.engine != Holding(s.pc[t].m)
    requires s.engine.Holding? ==> s.engine.m in s.mem
    requires s' == s.(pc := s.pc[t := Idle], mem := s.mem - {s.pc[t].m})
    ensures Ordered(s')
  {
  }

  lemma OrderedGotPort(s: State, s': State)
    requires Ordered(s) && (s.engine.Holding? ==> s.engine.m in s.mem)
    requires s' == s.(pc := s'.pc, slots := s'.slots, ports := s'.ports)
    ensures Ordered(s')
  {
  }

  lemma InvPut(s: State, t: Task)
    requires Inv(s)
    ensures Valued(DoPut(s, t)) && Ordered(DoPut(s, t))
  {
    OwnersHold(s);
    if In(s, t, Ported) {
      StillMine(s, t, Ported);
      ValuedPut(s, t);
      OrderedPut(s, t);
    }
  }

  /** An answered message is neither in the port nor in the engine's hands. */
  lemma AnswerIsOut(s: State, t: Task)
    requires Placed(s) && In(s, t, Waiting) && s.mem[s.pc[t].m].place == OnReplyPort
    ensures s.pc[t].m !in s.request && s.engine != Holding(s.pc[t].m)
  {
    assert MsgPlaced(s, s.pc[t].m);
  }

  lemma InvReceive(s: State, t: Task)
    requires Inv(s)
    ensures Valued(DoReceive(s, t)) && Ordered(DoReceive(s, t))
  {
    if In(s, t, Waiting) && s.pc[t].p in s.ports && s.ports[s.pc[t].p] != [] {
      OwnersHold(s);
      QueuedInMem(s);
      OwnReply(s, t);
      AnswerIsOut(s, t);
      ReceiveSame(s, t);
      ValuedReceive(s, t);
      OrderedQuiet(s, DoReceive(s, t));
    }
  }

  lemma InvCheck(s: State)
    requires Inv(s)
    ensures Valued(DoCheck(s)) && Ordered(DoCheck(s))
  {
    OwnersHold(s);
    OrderedPause(s);
    CheckSame(s, DoCheck(s).engine);
    ValuedEngine(s, DoCheck(s));
  }

  lemma InvWait(s: State)
    requires Inv(s)
    ensures Valued(DoWait(s)) && Ordered(DoWait(s))
  {
    OwnersHold(s);
    OrderedPause(s);
    WaitSame(s, DoWait(s).engine, DoWait(s).signal);
    ValuedEngine(s, DoWait(s));
  }

  lemma InvGet(s: State)
    requires Inv(s)
    ensures Valued(DoGet(s)) && Ordered(DoGet(s))
  {
    OwnersHold(s);
    QueuedInMem(s);
    GetSame(s, DoGet(s));
    ValuedEngine(s, DoGet(s));
    OrderedGet(s);
  }

  lemma InvReply(s: State)
    requires Inv(s)
    ensures Valued(DoReply(s)) && Ordered(DoReply(s))
  {
    OwnersHold(s);
    QueuedInMem(s);
    ReplySame(s);
    ValuedEngine(s, DoReply(s));
    OrderedQuiet(s, DoReply(s));
  }

  lemma InvDispatch(s: State)
    requires Inv(s)
    ensures Valued(Next(s, Dispatch)) && Ordered(DoDispatch(s))
  {
    OwnersHold(s);
    QueuedInMem(s);
    if s.engine.Holding? {
      var m := s.engine.m;
      assert MsgPlaced(s, m) && MsgValue(s, m);
      ValuedAnswer(s, m, Step(s.table, s.mem[m].req).1, Next(s, Dispatch));
    } else {
      ValuedEngine(s, Next(s, Dispatch));
    }
    OrderedDispatch(s);
  }

  lemma InvMove(s: State, a: Action)
    requires Inv(s)
    ensures Ordered(Move(s, a)) && (!a.Dispatch? ==> Valued(Move(s, a)))
  {
    match a
    case Begin(t, m, req) => InvBegin(s, t, m, req);
    case EnsurePort(t, alloc) => InvEnsurePort(s, t, alloc);
    case Put(t) => InvPut(s, t);
    case Receive(t) => InvReceive(s, t);
    case Check => InvCheck(s);
    case Wait => InvWait(s);
    case Get => InvGet(s);
    case Dispatch => InvDispatch(s);
    case Reply => InvReply(s);
  }

  lemma InvStep(s: State, a: Action)
    requires Inv(s)
    ensures Inv(Next(s, a))
  {
    PlacedStep(s, a);
    OrderedStep(s, a);
    ValuedStep(s, a);
  }

  lemma OrderedStep(s: State, a: Action)
    requires Inv(s)
    ensures Ordered(Next(s, a))
  {
    InvMove(s, a);
    OrderedTick(Move(s, a), Next(s, a));
  }

  lemma ValuedStep(s: State, a: Action)
    requires Inv(s)
    ensures Valued(Next(s, a))
  {
    if a.Dispatch? {
      InvDispatch(s);
    } else {
      PlacedMove(s, a);
      InvMove(s, a);
      ClockKept(s, a);
      ValuedTick(Move(s, a), Next(s, a));
    }
  }

  lemma ClockKept(s: State, a: Action)
    ensures Move(s, a).clock == s.clock
  {
    if IsEngine(a) {
      EngineFrame(s, a);
    } else {
      ClientFrame(s, a);
    }
  }

  lemma OrderedTick(s: State, s': State)
    requires Ordered(s) && s' == s.(clock := s'.clock)
    ensures Ordered(s')
  {
  }

  lemma ValuedTick(s: State, s': State)
    requires Placed(s) && Valued(s) && s' == s.(clock := s'.clock) && s.clock <= s'.clock
    ensures Valued(s')
  {
    OwnersHold(s);
    ValuedEngine(s, s');
  }

  lemma InitInv(tasks: set<Task>)
    ensures Inv(Init(tasks))
  {
  }

  /** The invariant holds in every state of every run, whatever the interleaving. */
  lemma {:induction false} RunInv(tasks: set<Task>, acts: seq<Action>)
    ensures Inv(Exec(Init(tasks), acts))
  {
    if acts == [] {
      InitInv(tasks);
    } else {
      RunInv(tasks, acts[..|acts| - 1]);
      InvStep(Exec(Init(tasks), acts[..|acts| - 1]), acts[|acts| - 1]);
    }
  }

  // ---- What clients may rely on ------------------------------------------

  /** Sequential table: in every interleaving, the table and all answers given so far are those of
      serving the logged requests one after the other, and the log is in the order of the PutMsgs. */
  lemma {:induction false} ServedInPortOrder(tasks: set<Task>, acts: seq<Action>)
    ensures var s := Exec(Init(tasks), acts);
            && s.table == Runs.Exec(map[], Asked(s.log))
            && Answers(s.log) == Runs.Replies(map[], Asked(s.log))
            && PutsOfLog(s.log) <= s.puts
  {
    RunInv(tasks, acts);
  }

  /** Exactly once and in program order: the log restricted to a task is the task's completed calls,
      each with the answer it got, followed by the answer it is still waiting for, if there is one. */
  lemma {:induction false} ExactlyOnceInOrder(tasks: set<Task>, acts: seq<Action>, t: Task)
    ensures var s := Exec(Init(tasks), acts);
            t in s.pc ==> t in s.calls && Project(s.log, t) == Done(s.calls[t]) + Outstanding(s, t)
  {
    RunInv(tasks, acts);
    var s := Exec(Init(tasks), acts);
    if t in s.pc {
      assert ClientPlaced(s, t) && CallsInLog(s, t);
    }
  }

  /** Linearizability: each call takes effect at one point between its beginning and its return, and a
      call that returned before another began comes before it in the log. */
  lemma {:induction false} RealTimeOrder(tasks: set<Task>, acts: seq<Action>, t: Task, i: nat, u: Task, j: nat)
    ensures var s := Exec(Init(tasks), acts);
            t in s.pc && u in s.pc && t in s.calls && u in s.calls && i < |s.calls[t]| && j < |s.calls[u]| ==> (
              var c, d := s.calls[t][i], s.calls[u][j];
              && CallInLog(s, t, c) && CallInLog(s, u, d)
              && (c.returned < d.begun ==> c.index < d.index))
  {
    RunInv(tasks, acts);
    var s := Exec(Init(tasks), acts);
    if t in s.pc && u in s.pc && t in s.calls && u in s.calls && i < |s.calls[t]| && j < |s.calls[u]| {
      CallPlaced(s, t, i);
      CallPlaced(s, u, j);
      EarlierIndex(s, t, s.calls[t][i], u, s.calls[u][j]);
    }
  }

  lemma CallPlaced(s: State, t: Task, i: nat)
    requires Valued(s) && t in s.pc && t in s.calls && i < |s.calls[t]|
    ensures Served(s) && CallInLog(s, t, s.calls[t][i])
  {
  }

  /** Log positions follow the order of the dispatches in time. */
  lemma EarlierIndex(s: State, t: Task, c: Call, u: Task, d: Call)
    requires Served(s) && CallInLog(s, t, c) && CallInLog(s, u, d)
    ensures c.returned < d.begun ==> c.index < d.index
  {
  }

  /** No lost wakeup: an engine at Wait with requests in its port has its signal pending. */
  lemma {:induction false} NoLostWakeup(tasks: set<Task>, acts: seq<Action>)
    ensures var s := Exec(Init(tasks), acts);
            s.engine.AtWait? && s.request != [] ==> s.signal
  {
    RunInv(tasks, acts);
  }

  /** When the engine has stopped, the requests dispatched are exactly those put before the last empty
      GetMsg, in that order, and what was put later is still in the port. */
  lemma {:induction false} ShutdownDrains(tasks: set<Task>, acts: seq<Action>)
    ensures var s := Exec(Init(tasks), acts);
            s.engine.Stopped? ==> (
              && s.drained <= |s.puts| && PutsOfLog(s.log) == s.puts[..s.drained]
              && (forall i :: 0 <= i < |s.request| ==> s.request[i] in s.mem)
              && PutsOfQueue(s.mem, s.request) == s.puts[s.drained..])
  {
    RunInv(tasks, acts);
  }

  /** Every dispatched request has then been replied to: a caller that still waits finds its answer on
      its reply port, unless its request was put after the last empty GetMsg and is still queued. */
  lemma {:induction false} ShutdownReplies(tasks: set<Task>, acts: seq<Action>, t: Task)
    ensures var s := Exec(Init(tasks), acts);
            s.engine.Stopped? && In(s, t, Waiting) ==> (
              var m, p := s.pc[t].m, s.pc[t].p;
              (p in s.ports && s.ports[p] == [m] && IsDone(s.mem[m])) || (m in s.request && !IsDone(s.mem[m])))
  {
    RunInv(tasks, acts);
    var s := Exec(Init(tasks), acts);
    if In(s, t, Waiting) {
      assert ClientPlaced(s, t) && MsgPlaced(s, s.pc[t].m);
    }
  }
}
