/** That calls can be made: reply ports do not run out while there are at most as many tasks as slots, and
    every call that is begun while the engine serves can be carried through to its answer. */
module Calls {
  import opened Wrappers
  import opened Ipc
  import opened SocketSpec
  import opened ReplySlots
  import opened Rpc
  import opened RpcSafety
  import opened RpcFrames
  import opened Linearizability
  import opened Progress

  // ---- Reply ports -------------------------------------------------------

  /** Slots belong to known tasks, and their number never changes. */
  ghost predicate SlotsKnown(s: State, tasks: set<Task>) {
    && |s.slots| == 16 && s.pc.Keys == tasks
    && forall i :: 0 <= i < |s.slots| && s.slots[i].Taken? ==> s.slots[i].owner in tasks
  }

  lemma SlotsEnsurePort(s: State, t: Task, alloc: Option<PortId>, tasks: set<Task>)
    requires SlotsKnown(s, tasks)
    ensures SlotsKnown(DoEnsurePort(s, t, alloc), tasks)
  {
    if In(s, t, Begun) {
      EnsureExact(s.slots, t, alloc);
    }
  }

  lemma SlotsOthers(s: State, a: Action)
    requires !a.EnsurePort?
    ensures Move(s, a).slots == s.slots && Move(s, a).pc.Keys == s.pc.Keys
  {
    if IsEngine(a) {
      EngineFrame(s, a);
    } else if a.Begin? {
      BeginFrame(s, a.t, a.m, a.req);
    } else if a.Put? {
      PutFrame(s, a.t);
    } else {
      ReceiveFrame(s, a.t);
    }
  }

  lemma {:induction false} RunSlots(tasks: set<Task>, run: seq<Action>)
    ensures SlotsKnown(After(tasks, run), tasks)
  {
    if run != [] {
      var n := |run| - 1;
      var s, a := After(tasks, run[..n]), run[n];
      RunSlots(tasks, run[..n]);
      assert run == run[..n] + [a];
      AfterOne(tasks, run[..n], a);
      if a.EnsurePort? {
        SlotsEnsurePort(s, a.t, a.alloc, tasks);
      } else {
        SlotsOthers(s, a);
      }
    }
  }

  /** Slots that are all taken, by different tasks, number no more than the tasks. */
  lemma {:induction false} OwnersFit(slots: seq<Slot>, owners: set<Task>)
    requires SlotsDistinct(slots) && forall i :: 0 <= i < |slots| ==> slots[i].Taken? && slots[i].owner in owners
    ensures |slots| <= |owners|
  {
    if slots != [] {
      var n := |slots| - 1;
      OwnersFit(slots[..n], owners - {slots[n].owner});
    }
  }

  /** With at most as many tasks as slots, a task finds its slot or an unused one. */
  lemma SlotForAll(slots: seq<Slot>, tasks: set<Task>, t: Task)
    requires |slots| == 16 && |tasks| <= 16 && t in tasks && SlotsDistinct(slots)
    requires forall i :: 0 <= i < |slots| && slots[i].Taken? ==> slots[i].owner in tasks
    ensures OwnsSlot(slots, t) || SomeUnused(slots)
  {
    if !OwnsSlot(slots, t) && !SomeUnused(slots) {
      OwnersFit(slots, tasks - {t});
    }
  }

  lemma GetsPort(s: State, t: Task, p: PortId)
    requires In(s, t, Begun) && p !in s.ports && (OwnsSlot(s.slots, t) || SomeUnused(s.slots))
    ensures var s' := Next(s, EnsurePort(t, Some(p)));
            && In(s', t, Ported) && s'.pc[t].m == s.pc[t].m && s'.mem == s.mem && s'.engine == s.engine
            && s'.shutdown == s.shutdown && s'.calls == s.calls
  {
    EnsureExact(s.slots, t, Some(p));
  }

  /** With at most 16 tasks, in every run, a call whose port allocation succeeds gets its reply port. */
  lemma {:induction false} PortsSuffice(tasks: set<Task>, run: seq<Action>, t: Task, p: PortId)
    requires |tasks| <= 16 && In(After(tasks, run), t, Begun) && p !in After(tasks, run).ports
    ensures In(Next(After(tasks, run), EnsurePort(t, Some(p))), t, Ported)
  {
    var s := After(tasks, run);
    RunSlots(tasks, run);
    RunInv(tasks, run);
    SlotForAll(s.slots, tasks, t);
    GetsPort(s, t, p);
  }

  // ---- A whole call ------------------------------------------------------

  lemma BeginsCall(s: State, t: Task, m: MsgId, req: Req)
    requires t in s.pc && s.pc[t].Idle? && t in s.calls && m !in s.mem
    ensures var s' := Next(s, Begin(t, m, req));
            && In(s', t, Begun) && s'.pc[t].m == m && s'.mem[m].asked == req && s'.ports == s.ports
            && s'.mem[m].req == req && s'.mem[m].begun == s.clock
            && s'.engine == s.engine && s'.shutdown == s.shutdown && s'.calls == s.calls
  {
  }

  lemma PutsCall(s: State, t: Task)
    requires In(s, t, Ported) && !s.engine.Stopped?
    ensures var s' := Next(s, Put(t));
            && Unanswered(s', t) && s'.pc[t].m == s.pc[t].m && s'.mem[s.pc[t].m].asked == s.mem[s.pc[t].m].asked
            && s'.engine == s.engine && s'.shutdown == s.shutdown && s'.calls == s.calls
  {
  }

  /** The caller of an answered request returns with it. */
  lemma ReturnsFromCall(s: State, t: Task)
    requires In(s, t, Waiting) && Replied(s, t, s.pc[t].m)
    ensures var s', x := Next(s, Receive(t)), s.mem[s.pc[t].m];
            && t in s'.calls && |s'.calls[t]| == |s.calls[t]| + 1 && s'.calls[t][..|s.calls[t]|] == s.calls[t]
            && s'.calls[t][|s.calls[t]|].req == x.asked && t in s'.pc && s'.pc[t].Idle?
            && s'.calls[t][|s.calls[t]|].reply == x.req && s'.calls[t][|s.calls[t]|].begun == x.begun
            && s'.calls[t][|s.calls[t]|].returned == s.clock
  {
  }

  /** A dispatch is logged at the time it happens. */
  lemma LogsTime(s: State)
    requires s.engine.Holding? && s.engine.m in s.mem
    ensures var s' := Next(s, Dispatch);
            |s'.log| == |s.log| + 1 && s'.log[..|s.log|] == s.log && s'.log[|s.log|].time == s.clock
  {
  }

  /** Times count the steps of the run. */
  lemma {:induction false} TimesAreSteps(tasks: set<Task>, run: seq<Action>)
    ensures After(tasks, run).clock == |run|
  {
    if run != [] {
      var n := |run| - 1;
      TimesAreSteps(tasks, run[..n]);
      assert run == run[..n] + [run[n]];
      AfterOne(tasks, run[..n], run[n]);
    }
  }

  /** An engine step leaves every call as it was asked. */
  lemma EngineKeepsCalls(s: State, a: Action, m: MsgId)
    requires IsEngine(a) && m in s.mem
    ensures var s' := Move(s, a); s'.calls == s.calls && m in s'.mem && s'.mem[m].asked == s.mem[m].asked
  {
    EngineFrame(s, a);
    if a.Check? {
      CheckFrame(s);
    } else if a.Wait? {
      WaitFrame(s);
    } else if a.Get? {
      assert m in DoGet(s).mem && DoGet(s).mem[m].asked == s.mem[m].asked;
    } else if a.Dispatch? {
      assert m in DoDispatch(s).mem && DoDispatch(s).mem[m].asked == s.mem[m].asked;
    } else {
      assert m in DoReply(s).mem && DoReply(s).mem[m].asked == s.mem[m].asked;
    }
  }

  lemma {:induction false} EngineRunKeepsCalls(tasks: set<Task>, run: seq<Action>, more: seq<Action>, m: MsgId)
    requires OnlyEngine(more) && m in After(tasks, run).mem
    ensures var s, s' := After(tasks, run), After(tasks, run + more);
            s'.calls == s.calls && m in s'.mem && s'.mem[m].asked == s.mem[m].asked
  {
    if more == [] {
      assert run + more == run;
    } else {
      var n := |more| - 1;
      EngineRunKeepsCalls(tasks, run, more[..n], m);
      SnocRun(run, more);
      AfterOne(tasks, run + more[..n], more[n]);
      EngineKeepsCalls(After(tasks, run + more[..n]), more[n], m);
    }
  }

  /** A task in the middle of a call: its message asks `req`, and it has completed `calls` so far. */
  predicate InCall(s: State, t: Task, stage: Stage, m: MsgId, req: Req, calls: seq<Call>) {
    && In(s, t, stage) && s.pc[t].m == m && s.mem[m].asked == req && s.calls[t] == calls && !Closing(s)
    && !s.engine.Stopped?
  }

  lemma CallPut(tasks: set<Task>, run: seq<Action>, t: Task, m: MsgId, req: Req, p: PortId) returns (put: seq<Action>)
    requires |tasks| <= 16 && !Closing(After(tasks, run))
    requires var s := After(tasks, run); t in s.pc && s.pc[t].Idle? && t in s.calls && m !in s.mem && p !in s.ports
    ensures InCall(After(tasks, put), t, Waiting, m, req, After(tasks, run).calls[t])
    ensures Unanswered(After(tasks, put), t)
  {
    var s := After(tasks, run);
    var r1 := run + [Begin(t, m, req)];
    var r2 := r1 + [EnsurePort(t, Some(p))];
    AfterOne(tasks, run, Begin(t, m, req));
    BeginsCall(s, t, m, req);
    AfterOne(tasks, r1, EnsurePort(t, Some(p)));
    RunSlots(tasks, r1);
    RunInv(tasks, r1);
    SlotForAll(After(tasks, r1).slots, tasks, t);
    GetsPort(After(tasks, r1), t, p);
    AfterOne(tasks, r2, Put(t));
    PutsCall(After(tasks, r2), t);
    put := r2 + [Put(t)];
  }

  lemma CallReturns(tasks: set<Task>, put: seq<Action>, t: Task, m: MsgId, req: Req, calls: seq<Call>)
    returns (end: seq<Action>)
    requires InCall(After(tasks, put), t, Waiting, m, req, calls) && Unanswered(After(tasks, put), t)
    ensures var s := After(tasks, end);
            && t in s.calls && |s.calls[t]| == |calls| + 1 && s.calls[t][..|calls|] == calls
            && s.calls[t][|calls|].req == req && t in s.pc && s.pc[t].Idle?
  {
    var more := EngineAlone(tasks, put, t);
    EngineRunKeepsCalls(tasks, put, more, m);
    AfterOne(tasks, put + more, Receive(t));
    ReturnsFromCall(After(tasks, put + more), t);
    end := put + more + [Receive(t)];
  }

  /** In every state of every run with at most 16 tasks in which the engine serves, an idle task can make
      any request and return from it with its answer. */
  lemma {:induction false} CallCompletes(tasks: set<Task>, run: seq<Action>, t: Task, m: MsgId, req: Req, p: PortId)
    returns (end: seq<Action>)
    requires |tasks| <= 16 && !Closing(After(tasks, run))
    requires var s := After(tasks, run); t in s.pc && s.pc[t].Idle? && t in s.calls && m !in s.mem && p !in s.ports
    ensures var s, s' := After(tasks, run), After(tasks, end);
            && t in s'.calls && |s'.calls[t]| == |s.calls[t]| + 1 && s'.calls[t][..|s.calls[t]|] == s.calls[t]
            && s'.calls[t][|s.calls[t]|].req == req && t in s'.pc && s'.pc[t].Idle?
  {
    var put := CallPut(tasks, run, t, m, req, p);
    end := CallReturns(tasks, put, t, m, req, After(tasks, run).calls[t]);
  }
}
