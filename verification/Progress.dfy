/** Which requests are answered: exactly those that the engine still finds when it drains its port. */
module Progress {
  import opened Wrappers
  import opened ReplySlots
  import opened Rpc
  import opened RpcSafety
  import opened RpcFrames
  import opened Linearizability

  /** The engine will not look at its port again: it has stopped, or it has seen the port empty for the
      last time and is about to find the shutdown flag set. */
  predicate Closing(s: State) {
    s.engine.Stopped? || (s.engine.AtCheck? && s.shutdown)
  }

  /** The engine's next step. */
  function EngineAction(e: EnginePc): Action {
    match e
    case AtCheck => Check
    case AtWait => Wait
    case AtGet => Get
    case Holding(_) => Dispatch
    case Replying(_) => Reply
    case Stopped => Check
  }

  /** A put request that has no answer on its reply port yet. */
  predicate Unanswered(s: State, t: Task) {
    In(s, t, Waiting) && s.mem[s.pc[t].m].place != OnReplyPort
  }

  /** An engine action that moves the engine on. */
  predicate Effective(s: State, a: Action) {
    IsEngine(a) && Move(s, a).engine != s.engine
  }

  /** The engine can take its next step. */
  predicate CanMove(s: State) {
    Effective(s, EngineAction(s.engine))
  }

  predicate OnlyEngine(acts: seq<Action>) {
    forall i :: 0 <= i < |acts| ==> IsEngine(acts[i])
  }

  /** The caller `t` is still in its call, and the reply to it is on its reply port. */
  predicate Replied(s: State, t: Task, m: MsgId) {
    && In(s, t, Waiting) && s.pc[t].m == m && s.mem[m].place == OnReplyPort
    && s.pc[t].p in s.ports && s.ports[s.pc[t].p] == [m]
  }

  /** `t` is in the same call as before, and still unanswered. */
  predicate StillWaits(s: State, s': State, t: Task) {
    Unanswered(s, t) && Unanswered(s', t) && s'.pc[t] == s.pc[t]
  }

  /** The state a run leads to. */
  function After(tasks: set<Task>, run: seq<Action>): State {
    Exec(Init(tasks), run)
  }

  lemma Regroup(run: seq<Action>, a: Action, more: seq<Action>)
    ensures run + ([a] + more) == run + [a] + more
  {
  }

  lemma AfterOne(tasks: set<Task>, run: seq<Action>, a: Action)
    ensures After(tasks, run + [a]) == Next(After(tasks, run), a)
  {
  }

  // ---- How many engine steps a request is away from its answer -----------

  function IndexOf(q: seq<MsgId>, m: MsgId): (i: nat)
    requires m in q
    ensures i < |q| && q[i] == m
  {
    if q[0] == m then 0 else 1 + IndexOf(q[1..], m)
  }

  lemma {:induction false} IndexKept(q: seq<MsgId>, q': seq<MsgId>, m: MsgId)
    requires q <= q' && m in q
    ensures IndexOf(q', m) == IndexOf(q, m)
  {
    if q[0] != m {
      IndexKept(q[1..], q'[1..], m);
    }
  }

  lemma {:induction false} IndexOfLast(q: seq<MsgId>, m: MsgId)
    requires m !in q
    ensures IndexOf(q + [m], m) == |q|
  {
    if q != [] {
      assert (q + [m])[1..] == q[1..] + [m];
      IndexOfLast(q[1..], m);
    }
  }

  /** How far the engine is from its next GetMsg. */
  function Distance(e: EnginePc): nat {
    match e
    case AtGet => 0
    case AtWait => 1
    case Replying(_) => 1
    case AtCheck => 2
    case Holding(_) => 2
    case Stopped => 0
  }

  /** The engine steps that bring the answer of `t`: three for each message before its own, those to the
      next GetMsg, and three for its own. */
  function Rank(s: State, t: Task): nat
    requires t in s.pc && s.pc[t].Busy?
  {
    var m := s.pc[t].m;
    if s.engine == Replying(m) then 1
    else if s.engine == Holding(m) then 2
    else if m in s.request then 3 + 3 * IndexOf(s.request, m) + Distance(s.engine)
    else 0
  }

  /** `t` still waits, the engine will look at its port again, and the answer is `k` steps nearer. */
  predicate Onward(s: State, s': State, t: Task, k: nat) {
    StillWaits(s, s', t) && !Closing(s') && 0 < Rank(s', t) && Rank(s', t) + k <= Rank(s, t)
  }

  // ---- Engine steps ------------------------------------------------------

  /** Nothing keeps the engine from its next step. */
  predicate Ready(s: State) {
    && (s.engine.AtWait? ==> s.signal)
    && (s.engine.AtGet? && s.request != [] ==> s.request[0] in s.mem)
    && (s.engine.Holding? || s.engine.Replying? ==> s.engine.m in s.mem)
    && (s.engine.Replying? ==> s.mem[s.engine.m].replyPort in s.ports)
  }

  lemma IsReady(s: State)
    requires Inv(s) && s.request != []
    ensures Ready(s)
  {
  }

  /** A put request without an answer is in the engine's hands or in its port. */
  lemma WhereUnanswered(s: State, t: Task)
    requires Placed(s) && Unanswered(s, t)
    ensures s.engine == Holding(s.pc[t].m) || s.engine == Replying(s.pc[t].m) || s.pc[t].m in s.request
  {
  }

  lemma RepliedAfter(s: State, t: Task)
    requires Placed(s) && In(s, t, Waiting) && s.mem[s.pc[t].m].place == OnReplyPort
    ensures Replied(s, t, s.pc[t].m)
  {
  }

  lemma ReplyHeld(s: State, t: Task)
    requires In(s, t, Waiting) && s.engine == Replying(s.pc[t].m) && s.mem[s.pc[t].m].replyPort in s.ports
    ensures var s' := Next(s, Reply); In(s', t, Waiting) && s'.pc == s.pc && s'.mem[s.pc[t].m].place == OnReplyPort
  {
  }

  lemma ReplyArrives(s: State, t: Task)
    requires Inv(s) && In(s, t, Waiting) && s.engine == Replying(s.pc[t].m)
    ensures Replied(Next(s, Reply), t, s.pc[t].m)
  {
    ReplyPortEmpty(s);
    ReplyHeld(s, t);
    PlacedStep(s, Reply);
    RepliedAfter(Next(s, Reply), t);
  }

  lemma DispatchHeld(s: State, t: Task)
    requires Unanswered(s, t) && s.engine == Holding(s.pc[t].m)
    ensures Effective(s, Dispatch) && Onward(s, Next(s, Dispatch), t, 1)
  {
  }

  /** The message of `t` is in the port, and nothing keeps the engine from its next step. */
  predicate Queued(s: State, t: Task) {
    && Ready(s) && Unanswered(s, t) && s.pc[t].m in s.request && !Closing(s)
    && s.engine != Holding(s.pc[t].m) && s.engine != Replying(s.pc[t].m)
  }

  /** One engine step brings it nearer to its next GetMsg and leaves the queue alone. */
  lemma FinishOther(s: State, t: Task)
    requires Queued(s, t) && (s.engine.Holding? || s.engine.Replying?)
    ensures CanMove(s) && Onward(s, Next(s, EngineAction(s.engine)), t, 1)
  {
  }

  lemma ApproachGet(s: State, t: Task)
    requires Queued(s, t) && (s.engine.AtCheck? || s.engine.AtWait?)
    ensures CanMove(s) && Onward(s, Next(s, EngineAction(s.engine)), t, 1)
  {
  }

  /** A GetMsg takes the message or brings it one place forward. */
  lemma TakeNext(s: State, t: Task)
    requires Queued(s, t) && s.engine.AtGet?
    ensures Effective(s, Get) && Onward(s, Next(s, Get), t, 1)
  {
  }

  /** As long as a request is unanswered and the engine will look at its port again, the engine can take
      its next step, and it either answers the request or brings the answer one step nearer. */
  lemma EngineStep(s: State, t: Task)
    requires Inv(s) && Unanswered(s, t) && !Closing(s)
    ensures var s' := Next(s, EngineAction(s.engine));
            CanMove(s) && (Replied(s', t, s.pc[t].m) || Onward(s, s', t, 1))
  {
    WhereUnanswered(s, t);
    if s.engine == Replying(s.pc[t].m) {
      ReplyArrives(s, t);
      ReplyPortEmpty(s);
    } else if s.engine == Holding(s.pc[t].m) {
      DispatchHeld(s, t);
    } else {
      IsReady(s);
      if s.engine.AtGet? {
        TakeNext(s, t);
      } else if s.engine.AtCheck? || s.engine.AtWait? {
        ApproachGet(s, t);
      } else {
        FinishOther(s, t);
      }
    }
  }

  lemma OutOfTurn(s: State, a: Action)
    requires IsEngine(a) && a != EngineAction(s.engine)
    ensures Move(s, a) == s
  {
  }

  // ---- Client steps ------------------------------------------------------

  /** A task in a call has a message of its own. */
  lemma MessagesDiffer(s: State, t: Task, u: Task)
    requires Placed(s) && t != u && t in s.pc && u in s.pc && s.pc[t].Busy? && s.pc[u].Busy?
    ensures s.pc[t].m != s.pc[u].m
  {
  }

  lemma NothingToReceive(s: State, t: Task)
    requires Placed(s) && Unanswered(s, t)
    ensures DoReceive(s, t) == s
  {
    if s.pc[t].p in s.ports && s.ports[s.pc[t].p] != [] {
      OwnReply(s, t);
    }
  }

  predicate OthersDiffer(s: State, t: Task, m: MsgId) {
    forall u :: u in s.pc && u != t && s.pc[u].Busy? ==> s.pc[u].m != m
  }

  /** A step of another client: `t` still waits, the engine is where it was, its port may have grown. */
  predicate Undisturbed(s: State, s': State, t: Task) {
    StillWaits(s, s', t) && s'.engine == s.engine && s'.shutdown == s.shutdown && s.request <= s'.request
  }

  lemma OtherEnsurePort(s: State, u: Task, alloc: Option<PortId>, t: Task)
    requires Unanswered(s, t) && OthersDiffer(s, t, s.pc[t].m)
    ensures Undisturbed(s, DoEnsurePort(s, u, alloc), t)
  {
  }

  lemma OtherMove(s: State, a: Action, t: Task)
    requires Unanswered(s, t) && OthersDiffer(s, t, s.pc[t].m) && !IsEngine(a) && a != Receive(t)
    ensures Undisturbed(s, Move(s, a), t)
  {
    match a
    case EnsurePort(u, alloc) => OtherEnsurePort(s, u, alloc, t);
    case _ =>
  }

  lemma ClientStep(s: State, a: Action, t: Task)
    requires Inv(s) && Unanswered(s, t) && !IsEngine(a)
    ensures Undisturbed(s, Next(s, a), t)
  {
    if a == Receive(t) {
      NothingToReceive(s, t);
    } else {
      forall u | u in s.pc && u != t && s.pc[u].Busy?
        ensures s.pc[u].m != s.pc[t].m
      {
        MessagesDiffer(s, t, u);
      }
      OtherMove(s, a, t);
    }
  }

  lemma UndisturbedRank(s: State, s': State, t: Task)
    requires Undisturbed(s, s', t) && !Closing(s) && 0 < Rank(s, t)
    ensures Onward(s, s', t, 0)
  {
    if s.pc[t].m in s.request {
      IndexKept(s.request, s'.request, s.pc[t].m);
    }
  }

  // ---- Every interleaving ------------------------------------------------

  function One(b: bool): nat {
    if b then 1 else 0
  }

  /** Whatever is done next, by the engine or by any client: `t` gets its answer, or the engine will
      still look at its port and is not farther from answering, and nearer if it moved. */
  lemma AnyStep(s: State, a: Action, t: Task)
    requires Inv(s) && Unanswered(s, t) && !Closing(s)
    ensures Replied(Next(s, a), t, s.pc[t].m) || Onward(s, Next(s, a), t, One(Effective(s, a)))
  {
    WhereUnanswered(s, t);
    if !IsEngine(a) {
      ClientStep(s, a, t);
      UndisturbedRank(s, Next(s, a), t);
    } else if a == EngineAction(s.engine) {
      EngineStep(s, t);
    } else {
      OutOfTurn(s, a);
    }
  }

  /** How many of the actions of `more`, taken after `run`, move the engine on. */
  function EngineSteps(tasks: set<Task>, run: seq<Action>, more: seq<Action>): nat {
    if more == [] then 0
    else
      var n := |more| - 1;
      EngineSteps(tasks, run, more[..n]) + One(Effective(After(tasks, run + more[..n]), more[n]))
  }

  /** At some point of `more` the reply to `t` was on its reply port. */
  ghost predicate RepliedDuring(tasks: set<Task>, run: seq<Action>, more: seq<Action>, t: Task, m: MsgId) {
    exists n :: 0 <= n <= |more| && Replied(After(tasks, run + more[..n]), t, m)
  }

  lemma OneMore(tasks: set<Task>, run: seq<Action>, a: Action, t: Task)
    requires Unanswered(After(tasks, run), t) && !Closing(After(tasks, run))
    ensures var s, s' := After(tasks, run), After(tasks, run + [a]);
            Replied(s', t, s.pc[t].m) || Onward(s, s', t, One(Effective(s, a)))
  {
    RunInv(tasks, run);
    AfterOne(tasks, run, a);
    AnyStep(After(tasks, run), a, t);
  }

  lemma OnwardTwice(s0: State, s1: State, s2: State, t: Task, j: nat, k: nat)
    requires Onward(s0, s1, t, j) && Onward(s1, s2, t, k)
    ensures Onward(s0, s2, t, j + k)
  {
  }

  /** In every continuation, whatever the clients do, a request that the engine will still see is
      answered or comes nearer to its answer with every step of the engine. */
  lemma {:induction false} EveryContinuation(tasks: set<Task>, run: seq<Action>, more: seq<Action>, t: Task)
    requires Unanswered(After(tasks, run), t) && !Closing(After(tasks, run)) && 0 < Rank(After(tasks, run), t)
    ensures RepliedDuring(tasks, run, more, t, After(tasks, run).pc[t].m)
            || Onward(After(tasks, run), After(tasks, run + more), t, EngineSteps(tasks, run, more))
  {
    if more == [] {
      assert run + more == run;
    } else {
      var n := |more| - 1;
      var rest, m := more[..n], After(tasks, run).pc[t].m;
      EveryContinuation(tasks, run, rest, t);
      if RepliedDuring(tasks, run, rest, t, m) {
        DuringPrefix(tasks, run, more, n, t, m);
      } else {
        SnocRun(run, more);
        OneMore(tasks, run + rest, more[n], t);
        if Replied(After(tasks, run + more), t, m) {
          assert more[..|more|] == more;
        } else {
          OnwardTwice(After(tasks, run), After(tasks, run + rest), After(tasks, run + more), t,
                      EngineSteps(tasks, run, rest), One(Effective(After(tasks, run + rest), more[n])));
        }
      }
    }
  }

  lemma SnocRun(run: seq<Action>, more: seq<Action>)
    requires more != []
    ensures run + more == run + more[..|more| - 1] + [more[|more| - 1]]
  {
  }

  lemma DuringPrefix(tasks: set<Task>, run: seq<Action>, more: seq<Action>, n: nat, t: Task, m: MsgId)
    requires n <= |more| && RepliedDuring(tasks, run, more[..n], t, m)
    ensures RepliedDuring(tasks, run, more, t, m)
  {
    var k :| 0 <= k <= n && Replied(After(tasks, run + more[..n][..k]), t, m);
    assert more[..n][..k] == more[..k];
  }

  // ---- A port that is not read any more ----------------------------------

  /** The message of `t` is in a port nobody reads any more. */
  predicate Stranded(s: State, t: Task, m: MsgId) {
    Closing(s) && Unanswered(s, t) && s.pc[t].m == m
  }

  lemma StrandedStep(s: State, a: Action, t: Task, m: MsgId)
    requires Inv(s) && Stranded(s, t, m)
    ensures Stranded(Next(s, a), t, m)
  {
    if !IsEngine(a) {
      ClientStep(s, a, t);
    } else if a != EngineAction(s.engine) {
      OutOfTurn(s, a);
    }
  }

  lemma {:induction false} StrandedForEver(tasks: set<Task>, run: seq<Action>, more: seq<Action>, t: Task, m: MsgId)
    requires Stranded(After(tasks, run), t, m)
    ensures Stranded(After(tasks, run + more), t, m)
  {
    if more == [] {
      assert run + more == run;
    } else {
      var rest, a := more[..|more| - 1], more[|more| - 1];
      StrandedForEver(tasks, run, rest, t, m);
      StrandedOneMore(tasks, run + rest, a, t, m);
      SnocRun(run, more);
    }
  }

  lemma StrandedOneMore(tasks: set<Task>, run: seq<Action>, a: Action, t: Task, m: MsgId)
    requires Stranded(After(tasks, run), t, m)
    ensures Stranded(After(tasks, run + [a]), t, m)
  {
    RunInv(tasks, run);
    AfterOne(tasks, run, a);
    StrandedStep(After(tasks, run), a, t, m);
  }

  // ---- Exactly when a request is answered --------------------------------

  /** In every continuation the reply to `t` comes before the engine has taken `bound` steps, and until
      it comes the engine is never stuck. */
  ghost predicate Guaranteed(tasks: set<Task>, run: seq<Action>, t: Task, m: MsgId, bound: nat) {
    forall more :: RepliedDuring(tasks, run, more, t, m)
                   || (EngineSteps(tasks, run, more) < bound && CanMove(After(tasks, run + more)))
  }

  lemma GuaranteedIfSeen(tasks: set<Task>, run: seq<Action>, t: Task)
    requires Unanswered(After(tasks, run), t) && !Closing(After(tasks, run))
    ensures Guaranteed(tasks, run, t, After(tasks, run).pc[t].m, Rank(After(tasks, run), t))
  {
    var s := After(tasks, run);
    RunInv(tasks, run);
    WhereUnanswered(s, t);
    forall more
      ensures RepliedDuring(tasks, run, more, t, s.pc[t].m)
              || (EngineSteps(tasks, run, more) < Rank(s, t) && CanMove(After(tasks, run + more)))
    {
      EveryContinuation(tasks, run, more, t);
      if !RepliedDuring(tasks, run, more, t, s.pc[t].m) {
        RunInv(tasks, run + more);
        EngineStep(After(tasks, run + more), t);
      }
    }
  }

  lemma NotGuaranteedIfStranded(tasks: set<Task>, run: seq<Action>, t: Task, m: MsgId, bound: nat)
    requires Stranded(After(tasks, run), t, m)
    ensures !Guaranteed(tasks, run, t, m, bound)
  {
    var more := SoonStopped(tasks, run);
    forall n | 0 <= n <= |more|
      ensures !Replied(After(tasks, run + more[..n]), t, m)
    {
      StrandedForEver(tasks, run, more[..n], t, m);
    }
  }

  /** An engine that is closing comes to a point where it cannot move. */
  lemma SoonStopped(tasks: set<Task>, run: seq<Action>) returns (more: seq<Action>)
    requires Closing(After(tasks, run))
    ensures !CanMove(After(tasks, run + more))
  {
    if After(tasks, run).engine.Stopped? {
      assert run + [] == run;
      return [];
    }
    AfterOne(tasks, run, Check);
    return [Check];
  }

  /** The engine on its own brings the answer. */
  lemma {:induction false} EngineAlone(tasks: set<Task>, run: seq<Action>, t: Task) returns (more: seq<Action>)
    requires Unanswered(After(tasks, run), t) && !Closing(After(tasks, run))
    ensures OnlyEngine(more) && Replied(After(tasks, run + more), t, After(tasks, run).pc[t].m)
    decreases Rank(After(tasks, run), t)
  {
    var s := After(tasks, run);
    var a := EngineAction(s.engine);
    RunInv(tasks, run);
    EngineStep(s, t);
    AfterOne(tasks, run, a);
    if Replied(Next(s, a), t, s.pc[t].m) {
      return [a];
    }
    more := EngineAlone(tasks, run + [a], t);
    Regroup(run, a, more);
    more := [a] + more;
  }

  /** In every reachable state, for a caller whose request was put and not answered: if the engine will
      look at its port again, every interleaving in which the engine takes as many steps as the
      request's rank brings the reply, and nothing stops the engine from taking them; otherwise no
      continuation whatsoever, of the engine or of any task, ever replies to it. */
  lemma {:induction false} AnsweredExactly(tasks: set<Task>, run: seq<Action>, t: Task)
    ensures var s := After(tasks, run);
            Unanswered(s, t) ==> (
              && (Guaranteed(tasks, run, t, s.pc[t].m, Rank(s, t)) <==> !Closing(s))
              && (Closing(s) ==> forall more :: !Replied(After(tasks, run + more), t, s.pc[t].m))
              && (!Closing(s) ==> exists more :: OnlyEngine(more) && Replied(After(tasks, run + more), t, s.pc[t].m)))
  {
    var s := After(tasks, run);
    if Unanswered(s, t) {
      if Closing(s) {
        NotGuaranteedIfStranded(tasks, run, t, s.pc[t].m, Rank(s, t));
        forall more
          ensures !Replied(After(tasks, run + more), t, s.pc[t].m)
        {
          StrandedForEver(tasks, run, more, t, s.pc[t].m);
        }
      } else {
        GuaranteedIfSeen(tasks, run, t);
        var more := EngineAlone(tasks, run, t);
      }
    }
  }

  /** A PutMsg leaves the request last in the port and the engine where it is. */
  lemma PutQueues(s: State, t: Task)
    requires Inv(s) && In(s, t, Ported) && !s.engine.Stopped?
    ensures var s' := Next(s, Put(t));
            && Unanswered(s', t) && s'.pc[t].m == s.pc[t].m && s'.engine == s.engine && s'.shutdown == s.shutdown
            && Rank(s', t) == 3 + 3 * |s.request| + Distance(s.engine)
  {
    assert ClientPlaced(s, t) && MsgPlaced(s, s.pc[t].m);
    IndexOfLast(s.request, s.pc[t].m);
  }

  /** The state of the engine at the PutMsg decides: a request is guaranteed its answer, within a number
      of engine steps given by the queue before it, exactly when it is not put between the engine's last
      empty GetMsg and its look at the shutdown flag. */
  lemma {:induction false} AnsweredFromPut(tasks: set<Task>, run: seq<Action>, t: Task)
    ensures var s := After(tasks, run);
            In(s, t, Ported) && !s.engine.Stopped? ==> (
              Guaranteed(tasks, run + [Put(t)], t, s.pc[t].m, 3 + 3 * |s.request| + Distance(s.engine))
              <==> !(s.engine.AtCheck? && s.shutdown))
  {
    var s := After(tasks, run);
    if In(s, t, Ported) && !s.engine.Stopped? {
      RunInv(tasks, run);
      PutQueues(s, t);
      AfterOne(tasks, run, Put(t));
      AnsweredExactly(tasks, run + [Put(t)], t);
    }
  }
}
