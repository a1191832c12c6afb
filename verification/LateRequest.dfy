/** A request that is never answered: the window between the engine's last empty GetMsg and its look at
    the shutdown flag can be hit, by any task and with any request. */
module LateRequest {
  import opened Wrappers
  import opened Ipc
  import opened ReplySlots
  import opened Rpc
  import opened Progress

  lemma BeginStep(s: State, t: Task, m: MsgId, req: Req)
    requires t in s.pc && s.pc[t].Idle? && m !in s.mem
    ensures Next(s, Begin(t, m, req)) ==
            s.(pc := s.pc[t := Busy(Begun, m, -1)], mem := s.mem[m := Msg(req, -1, t, req, s.clock, WithSender, -1)],
               clock := s.clock + 1)
  {
  }

  lemma PortStep(s: State, t: Task, p: PortId)
    requires In(s, t, Begun) && p !in s.ports && OwnerFrom(s.slots, t, 0) < 0 && UnusedFrom(s.slots, 0) >= 0
    ensures Next(s, EnsurePort(t, Some(p))) ==
            s.(pc := s.pc[t := Busy(Ported, s.pc[t].m, p)], slots := Ensure(s.slots, t, Some(p)).0,
               ports := s.ports[p := []], clock := s.clock + 1)
  {
  }

  lemma PutStep(s: State, t: Task, m: MsgId, p: PortId)
    requires In(s, t, Ported) && s.pc[t] == Busy(Ported, m, p) && !s.engine.Stopped?
    ensures Next(s, Put(t)) ==
            s.(pc := s.pc[t := Busy(Waiting, m, p)],
               mem := s.mem[m := s.mem[m].(replyPort := p, place := OnRequestPort)],
               request := s.request + [m], signal := true, puts := s.puts + [(t, s.mem[m].req)], clock := s.clock + 1)
  {
  }

  /** An idle task whose call gets a newly allocated reply port has its request in the port. */
  lemma CallPuts(s: State, s1: State, s2: State, s3: State, t: Task, m: MsgId, req: Req, p: PortId)
    requires t in s.pc && s.pc[t].Idle? && t in s.calls && m !in s.mem && p !in s.ports && !s.engine.Stopped?
    requires OwnerFrom(s.slots, t, 0) < 0 && UnusedFrom(s.slots, 0) >= 0
    requires s1 == Next(s, Begin(t, m, req)) && s2 == Next(s1, EnsurePort(t, Some(p))) && s3 == Next(s2, Put(t))
    ensures s3.pc == s.pc[t := Busy(Waiting, m, p)] && s3.calls == s.calls
    ensures s3.mem == s.mem[m := Msg(req, p, t, req, s.clock, OnRequestPort, -1)]
    ensures s3.slots == Ensure(s.slots, t, Some(p)).0 && s3.ports == s.ports[p := []]
    ensures s3.request == s.request + [m] && s3.signal && s3.engine == s.engine && s3.shutdown == s.shutdown
  {
    BeginStep(s, t, m, req);
    PortStep(s1, t, p);
    PutStep(s2, t, m, p);
  }

  // ---- The engine's way into the window ----------------------------------

  /** `u` is idle and can still get a reply port. */
  predicate Fresh(s: State, u: Task) {
    && u in s.pc && s.pc[u].Idle? && u in s.calls && 20 !in s.mem && 200 !in s.ports
    && OwnerFrom(s.slots, u, 0) < 0 && UnusedFrom(s.slots, 0) >= 0
  }

  /** The engine is at `e` with messages `q` in its port; message 10, once a shutdown request, can be
      replied to. */
  predicate Serving(s: State, u: Task, e: EnginePc, q: seq<MsgId>, shutdown: bool) {
    && Fresh(s, u) && s.engine == e && s.request == q && s.shutdown == shutdown
    && 10 in s.mem && s.mem[10].replyPort in s.ports && (!shutdown ==> s.mem[10].req.body.Shutdown?)
    && (q != [] ==> s.signal || e == AtGet)
  }

  lemma CheckStep(s: State, u: Task)
    requires Serving(s, u, AtCheck, [10], false)
    ensures Serving(Next(s, Check), u, AtWait, [10], false)
  {
  }

  lemma WaitStep(s: State, u: Task)
    requires Serving(s, u, AtWait, [10], false)
    ensures Serving(Next(s, Wait), u, AtGet, [10], false)
  {
  }

  lemma GetStep(s: State, u: Task)
    requires Serving(s, u, AtGet, [10], false)
    ensures Serving(Next(s, Get), u, Holding(10), [], false)
  {
  }

  lemma DispatchStep(s: State, u: Task)
    requires Serving(s, u, Holding(10), [], false)
    ensures Serving(Next(s, Dispatch), u, Replying(10), [], true)
  {
  }

  lemma ReplyStep(s: State, u: Task)
    requires Serving(s, u, Replying(10), [], true)
    ensures Serving(Next(s, Reply), u, AtGet, [], true)
  {
  }

  lemma EmptyGetStep(s: State, u: Task)
    requires Serving(s, u, AtGet, [], true)
    ensures Serving(Next(s, Get), u, AtCheck, [], true)
  {
  }

  // ---- The run -----------------------------------------------------------

  /** `t` asks for shutdown, the engine serves it and finds its port empty; before the engine looks at the
      flag, `u` puts its request. */
  predicate IsLateRun(run: seq<Action>, t: Task, u: Task, req: Req) {
    && |run| == 12
    && run[0] == Begin(t, 10, Req(0, Shutdown)) && run[1] == EnsurePort(t, Some(100)) && run[2] == Put(t)
    && run[3] == Check && run[4] == Wait && run[5] == Get
    && run[6] == Dispatch && run[7] == Reply && run[8] == Get
    && run[9] == Begin(u, 20, req) && run[10] == EnsurePort(u, Some(200)) && run[11] == Put(u)
  }

  /** The states a run passes through. */
  predicate IsTrace(states: seq<State>, tasks: set<Task>, run: seq<Action>) {
    && |states| == |run| + 1 && states[0] == Init(tasks)
    && forall k :: 0 <= k < |run| ==> states[k + 1] == Next(states[k], run[k])
  }

  lemma {:induction false} TraceOf(tasks: set<Task>, run: seq<Action>) returns (states: seq<State>)
    ensures IsTrace(states, tasks, run) && states[|run|] == After(tasks, run)
  {
    if run == [] {
      return [Init(tasks)];
    }
    var n := |run| - 1;
    var front := TraceOf(tasks, run[..n]);
    assert run == run[..n] + [run[n]];
    AfterOne(tasks, run[..n], run[n]);
    states := front + [After(tasks, run)];
  }

  lemma FirstSlots(slots: seq<Slot>, t: Task, u: Task)
    requires |slots| > 1 && t != u && forall i :: 0 <= i < |slots| ==> slots[i].Unused?
    ensures OwnerFrom(slots, t, 0) < 0 && UnusedFrom(slots, 0) >= 0
    ensures var after := Ensure(slots, t, Some(100)).0; OwnerFrom(after, u, 0) < 0 && UnusedFrom(after, 0) >= 0
  {
    var after := Ensure(slots, t, Some(100)).0;
    assert OwnerFrom(slots, t, 0) < 0 && UnusedFrom(slots, 0) == 0;
    assert after == slots[0 := Taken(t, 100)];
    assert after[1].Unused?;
  }

  /** A first call of `t` leaves its request in the port. */
  lemma FirstCall(s: State, s1: State, s2: State, s3: State, tasks: set<Task>, t: Task, u: Task)
    requires t in tasks && u in tasks && t != u && s == Init(tasks) && s1 == Next(s, Begin(t, 10, Req(0, Shutdown)))
    requires s2 == Next(s1, EnsurePort(t, Some(100))) && s3 == Next(s2, Put(t))
    ensures Serving(s3, u, AtCheck, [10], false)
  {
    FirstSlots(s.slots, t, u);
    CallPuts(s, s1, s2, s3, t, 10, Req(0, Shutdown), 100);
  }

  /** A call of `u` while the engine is in the window is stranded. */
  lemma LateCall(s: State, s1: State, s2: State, s3: State, u: Task, req: Req)
    requires Serving(s, u, AtCheck, [], true) && s1 == Next(s, Begin(u, 20, req))
    requires s2 == Next(s1, EnsurePort(u, Some(200))) && s3 == Next(s2, Put(u))
    ensures Stranded(s3, u, 20)
  {
    CallPuts(s, s1, s2, s3, u, 20, req, 200);
  }

  /** The engine takes the shutdown request off its port. */
  lemma Takes(s: State, u: Task)
    requires Serving(s, u, AtCheck, [10], false)
    ensures Serving(Next(Next(Next(s, Check), Wait), Get), u, Holding(10), [], false)
  {
    CheckStep(s, u);
    WaitStep(Next(s, Check), u);
    GetStep(Next(Next(s, Check), Wait), u);
  }

  /** The engine answers it and finds its port empty. */
  lemma Answers(s: State, u: Task)
    requires Serving(s, u, Holding(10), [], false)
    ensures Serving(Next(Next(Next(s, Dispatch), Reply), Get), u, AtCheck, [], true)
  {
    DispatchStep(s, u);
    ReplyStep(Next(s, Dispatch), u);
    EmptyGetStep(Next(Next(s, Dispatch), Reply), u);
  }

  lemma LateTrace(ss: seq<State>, tasks: set<Task>, run: seq<Action>, t: Task, u: Task, req: Req)
    requires t in tasks && u in tasks && t != u && IsLateRun(run, t, u, req) && IsTrace(ss, tasks, run)
    ensures Stranded(ss[12], u, 20)
  {
    FirstCall(ss[0], ss[1], ss[2], ss[3], tasks, t, u);
    Takes(ss[3], u);
    assert ss[6] == Next(Next(Next(ss[3], Check), Wait), Get);
    Answers(ss[6], u);
    assert ss[9] == Next(Next(Next(ss[6], Dispatch), Reply), Get);
    LateCall(ss[9], ss[10], ss[11], ss[12], u, req);
  }

  function LateRun(t: Task, u: Task, req: Req): seq<Action> {
    [Begin(t, 10, Req(0, Shutdown)), EnsurePort(t, Some(100)), Put(t), Check, Wait, Get, Dispatch, Reply, Get,
     Begin(u, 20, req), EnsurePort(u, Some(200)), Put(u)]
  }

  /** The window is real: for any two tasks and any request this run ends with the request stranded. */
  lemma {:induction false} LateRequestStranded(tasks: set<Task>, t: Task, u: Task, req: Req)
    requires t in tasks && u in tasks && t != u
    ensures Stranded(After(tasks, LateRun(t, u, req)), u, 20)
  {
    var run := LateRun(t, u, req);
    var ss := TraceOf(tasks, run);
    LateTrace(ss, tasks, run, t, u, req);
  }
}
