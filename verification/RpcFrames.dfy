/** Which parts of the state each step may change. */
module RpcFrames {
  import opened Wrappers
  import opened ReplySlots
  import opened Ipc
  import opened Rpc

  lemma BeginFrame(s: State, t: Task, m: MsgId, req: Req)
    ensures var s' := DoBegin(s, t, m, req); s' == s.(pc := s'.pc, mem := s'.mem)
  {
  }

  lemma EnsurePortFrame(s: State, t: Task, alloc: Option<PortId>)
    ensures var s' := DoEnsurePort(s, t, alloc);
            s' == s.(pc := s'.pc, mem := s'.mem, slots := s'.slots, ports := s'.ports)
  {
  }

  lemma PutFrame(s: State, t: Task)
    ensures var s' := DoPut(s, t);
            s' == s.(pc := s'.pc, mem := s'.mem, request := s'.request, signal := s'.signal, puts := s'.puts)
  {
  }

  lemma ReceiveFrame(s: State, t: Task)
    ensures var s' := DoReceive(s, t); s' == s.(pc := s'.pc, mem := s'.mem, ports := s'.ports, calls := s'.calls)
  {
  }

  lemma CheckFrame(s: State)
    ensures DoCheck(s) == s.(engine := DoCheck(s).engine)
  {
  }

  lemma WaitFrame(s: State)
    ensures DoWait(s) == s.(engine := DoWait(s).engine, signal := DoWait(s).signal)
  {
  }

  lemma GetFrame(s: State)
    ensures var s' := DoGet(s);
            s' == s.(engine := s'.engine, request := s'.request, mem := s'.mem, drained := s'.drained)
  {
    if s.engine.AtGet? && s.request == [] {
      assert DoGet(s) == s.(engine := AtCheck, drained := |s.puts|);
    } else if s.engine.AtGet? && s.request[0] in s.mem {
      assert DoGet(s).engine == Holding(s.request[0]);
    } else {
      assert DoGet(s) == s;
    }
  }

  lemma DispatchFrame(s: State)
    ensures var s' := DoDispatch(s);
            s' == s.(engine := s'.engine, table := s'.table, shutdown := s'.shutdown, mem := s'.mem, log := s'.log)
  {
  }

  lemma ReplyFrame(s: State)
    ensures var s' := DoReply(s); s' == s.(engine := s'.engine, mem := s'.mem, ports := s'.ports)
  {
  }

  predicate IsEngine(a: Action) {
    a.Check? || a.Wait? || a.Get? || a.Dispatch? || a.Reply?
  }

  /** No client step touches the engine, its table, its flag or its log. */
  lemma ClientFrame(s: State, a: Action)
    requires !IsEngine(a)
    ensures var s' := Move(s, a);
            && s'.engine == s.engine && s'.table == s.table && s'.shutdown == s.shutdown && s'.log == s.log
            && s'.drained == s.drained && s'.clock == s.clock
  {
    if a.Begin? {
      BeginFrame(s, a.t, a.m, a.req);
    } else if a.EnsurePort? {
      EnsurePortFrame(s, a.t, a.alloc);
    } else if a.Put? {
      PutFrame(s, a.t);
    } else {
      ReceiveFrame(s, a.t);
    }
  }

  /** No engine step touches a client, its calls or the reply slots. */
  lemma EngineFrame(s: State, a: Action)
    requires IsEngine(a)
    ensures var s' := Move(s, a);
            && s'.pc == s.pc && s'.calls == s.calls && s'.slots == s.slots && s'.puts == s.puts && s'.clock == s.clock
  {
    if a.Check? {
      CheckFrame(s);
    } else if a.Wait? {
      WaitFrame(s);
    } else if a.Get? {
      GetFrame(s);
    } else if a.Dispatch? {
      DispatchFrame(s);
    } else {
      ReplyFrame(s);
    }
  }
}
