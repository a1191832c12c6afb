/** Invariants of the message protocol, kept by every step of every interleaving. */
module RpcSafety {
  import opened Ipc
  import opened SocketSpec
  import opened Wrappers
  import opened ReplySlots
  import opened Rpc
  import Runs

  // ---- Where messages are ------------------------------------------------

  /** Each message is in exactly the one place its record says, and its sender is in the call. */
  predicate MsgPlaced(s: State, m: MsgId)
    requires m in s.mem
  {
    var x := s.mem[m];
    && x.sender in s.pc && s.pc[x.sender].Busy? && s.pc[x.sender].m == m
    && (x.place == WithSender <==> s.pc[x.sender].stage != Waiting)
    && (x.place == OnRequestPort <==> m in s.request)
    && (x.place == AtEngine <==> s.engine == Holding(m))
    && (x.place == Answered <==> s.engine == Replying(m))
    && (s.pc[x.sender].stage == Waiting ==> x.replyPort == s.pc[x.sender].p)
    && (x.place == OnReplyPort ==> x.replyPort in s.ports && s.ports[x.replyPort] == [m])
  }

  /** A client in a call owns its message and, from Ported on, its reply port. */
  predicate ClientPlaced(s: State, t: Task)
    requires t in s.pc
  {
    t in s.calls &&
    (s.pc[t].Busy? ==> (
       && s.pc[t].m in s.mem && s.mem[s.pc[t].m].sender == t
       && (s.pc[t].stage != Begun ==> HasSlot(s.slots, t, s.pc[t].p))))
  }

  /** A reply port holds only answered messages addressed to it. */
  predicate PortPlaced(s: State, p: PortId)
    requires p in s.ports
  {
    forall m :: m in s.ports[p] ==> m in s.mem && s.mem[m].place == OnReplyPort && s.mem[m].replyPort == p
  }

  predicate QueuePlaced(s: State) {
    && (forall i :: 0 <= i < |s.request| ==> s.request[i] in s.mem)
    && (forall i, j :: 0 <= i < j < |s.request| ==> s.request[i] != s.request[j])
    && ((s.engine.Holding? || s.engine.Replying?) ==> s.engine.m in s.mem)
  }

  ghost predicate SlotsPlaced(s: State) {
    SlotsDistinct(s.slots) && forall t, p :: HasSlot(s.slots, t, p) ==> p in s.ports
  }

  ghost predicate Placed(s: State) {
    && (forall m :: m in s.mem ==> MsgPlaced(s, m))
    && (forall t :: t in s.pc ==> ClientPlaced(s, t))
    && (forall p :: p in s.ports ==> PortPlaced(s, p))
    && QueuePlaced(s) && SlotsPlaced(s)
  }

  lemma PlacedBegin(s: State, t: Task, m: MsgId, req: Req)
    requires Placed(s)
    ensures Placed(DoBegin(s, t, m, req))
  {
  }

  /** A call that gets no reply port gives its message back unsent. */
  lemma PlacedGiveUp(s: State, t: Task, s': State)
    requires Placed(s) && In(s, t, Begun)
    requires s' == s.(pc := s.pc[t := Idle], mem := s.mem - {s.pc[t].m})
    ensures Placed(s')
  {
  }

  /** A call that has its reply port, in a slot table that only gained the slot for it. */
  lemma PlacedGotPort(s: State, t: Task, slots: seq<Slot>, p: PortId, s': State)
    requires Placed(s) && In(s, t, Begun)
    requires s' == s.(pc := s.pc[t := Busy(Ported, s.pc[t].m, p)], slots := slots,
                      ports := if p in s.ports then s.ports else s.ports[p := []])
    requires SlotsDistinct(slots) && HasSlot(slots, t, p)
    requires forall u, q :: HasSlot(s.slots, u, q) ==> HasSlot(slots, u, q)
    requires forall u, q :: HasSlot(slots, u, q) ==> HasSlot(s.slots, u, q) || q == p
    ensures Placed(s')
  {
    assert ClientPlaced(s, t) && MsgPlaced(s, s.pc[t].m);
    forall k | k in s'.mem
      ensures MsgPlaced(s', k)
    {
      assert MsgPlaced(s, k);
    }
    forall u | u in s'.pc
      ensures ClientPlaced(s', u)
    {
      assert ClientPlaced(s, u);
    }
    forall q | q in s'.ports
      ensures PortPlaced(s', q)
    {
      assert q in s.ports ==> PortPlaced(s, q);
    }
  }

  lemma PlacedEnsurePort(s: State, t: Task, alloc: Option<PortId>)
    requires Placed(s)
    ensures Placed(DoEnsurePort(s, t, alloc))
  {
    if In(s, t, Begun) && (alloc.Some? ==> alloc.value !in s.ports) {
      var (slots, p) := Ensure(s.slots, t, alloc);
      EnsureExclusive(s.slots, t, alloc);
      if p.None? {
        PlacedGiveUp(s, t, DoEnsurePort(s, t, alloc));
      } else {
        PlacedGotPort(s, t, slots, p.value, DoEnsurePort(s, t, alloc));
      }
    }
  }

  lemma PlacedPut(s: State, t: Task)
    requires Placed(s)
    ensures Placed(DoPut(s, t))
  {
    var s' := DoPut(s, t);
    if s' != s {
      assert ClientPlaced(s, t) && MsgPlaced(s, s.pc[t].m);
      forall k | k in s'.mem
        ensures MsgPlaced(s', k)
      {
        assert MsgPlaced(s, k);
      }
      forall u | u in s'.pc
        ensures ClientPlaced(s', u)
      {
        assert ClientPlaced(s, u);
      }
      forall p | p in s'.ports
        ensures PortPlaced(s', p)
      {
        assert PortPlaced(s, p);
      }
    }
  }

  /** What a waiting client finds on its reply port is its own message, answered. */
  lemma OwnReply(s: State, t: Task)
    requires Placed(s) && In(s, t, Waiting) && s.pc[t].p in s.ports && s.ports[s.pc[t].p] != []
    ensures s.ports[s.pc[t].p] == [s.pc[t].m] && s.mem[s.pc[t].m].place == OnReplyPort
  {
    var p := s.pc[t].p;
    var k := s.ports[p][0];
    assert PortPlaced(s, p) && k in s.ports[p];
    assert MsgPlaced(s, k) && ClientPlaced(s, t);
    var u := s.mem[k].sender;
    assert ClientPlaced(s, u);
    SlotOwnerUnique(s.slots, t, u, p);
  }

  lemma PlacedReceive(s: State, t: Task)
    requires Placed(s)
    ensures Placed(DoReceive(s, t))
  {
    var s' := DoReceive(s, t);
    if s' != s {
      OwnReply(s, t);
      assert ClientPlaced(s, t) && MsgPlaced(s, s.pc[t].m);
      forall k | k in s'.mem
        ensures MsgPlaced(s', k)
      {
        assert MsgPlaced(s, k);
      }
      forall u | u in s'.pc
        ensures ClientPlaced(s', u)
      {
        assert ClientPlaced(s, u);
      }
      forall p | p in s'.ports
        ensures PortPlaced(s', p)
      {
        assert PortPlaced(s, p);
      }
    }
  }

  lemma PlacedGet(s: State)
    requires Placed(s)
    ensures Placed(DoGet(s))
  {
    var s' := DoGet(s);
    if s' != s && s.request != [] {
      var m := s.request[0];
      assert MsgPlaced(s, m) && m in s.request;
      forall k | k in s'.mem
        ensures MsgPlaced(s', k)
      {
        assert MsgPlaced(s, k);
        assert k in s.request <==> k == m || k in s'.request;
      }
      forall u | u in s'.pc
        ensures ClientPlaced(s', u)
      {
        assert ClientPlaced(s, u);
      }
      forall p | p in s'.ports
        ensures PortPlaced(s', p)
      {
        assert PortPlaced(s, p);
      }
    } else {
      PlacedEngineMove(s, s');
    }
  }

  /** The engine moves between points at which it holds no message. */
  lemma PlacedEngineMove(s: State, s': State)
    requires Placed(s)
    requires s'.pc == s.pc && s'.mem == s.mem && s'.slots == s.slots && s'.ports == s.ports
    requires s'.request == s.request && s'.calls == s.calls
    requires s'.engine == s.engine
             || !(s.engine.Holding? || s.engine.Replying? || s'.engine.Holding? || s'.engine.Replying?)
    ensures Placed(s')
  {
  }

  lemma PlacedDispatch(s: State)
    requires Placed(s)
    ensures Placed(DoDispatch(s))
  {
  }

  /** A message about to be replied to finds its reply port there and empty. */
  lemma ReplyPortEmpty(s: State)
    requires Placed(s) && s.engine.Replying?
    ensures s.engine.m in s.mem && s.mem[s.engine.m].replyPort in s.ports && s.ports[s.mem[s.engine.m].replyPort] == []
  {
    var m := s.engine.m;
    assert MsgPlaced(s, m);
    var t, p := s.mem[m].sender, s.mem[m].replyPort;
    assert ClientPlaced(s, t) && HasSlot(s.slots, t, p);
    assert PortPlaced(s, p);
    if s.ports[p] != [] {
      OwnReply(s, t);
    }
  }

  lemma PlacedReply(s: State)
    requires Placed(s)
    ensures Placed(DoReply(s))
  {
    var s' := DoReply(s);
    if s' != s {
      ReplyPortEmpty(s);
      var m := s.engine.m;
      assert MsgPlaced(s, m);
      forall k | k in s'.mem
        ensures MsgPlaced(s', k)
      {
        assert MsgPlaced(s, k);
      }
      forall u | u in s'.pc
        ensures ClientPlaced(s', u)
      {
        assert ClientPlaced(s, u);
      }
      forall p | p in s'.ports
        ensures PortPlaced(s', p)
      {
        assert PortPlaced(s, p);
      }
    }
  }

  lemma PlacedCheck(s: State)
    requires Placed(s)
    ensures Placed(DoCheck(s))
  {
  }

  lemma PlacedWait(s: State)
    requires Placed(s)
    ensures Placed(DoWait(s))
  {
  }

  lemma PlacedMove(s: State, a: Action)
    requires Placed(s)
    ensures Placed(Move(s, a))
  {
    match a
    case Begin(t, m, req) => PlacedBegin(s, t, m, req);
    case EnsurePort(t, alloc) => PlacedEnsurePort(s, t, alloc);
    case Put(t) => PlacedPut(s, t);
    case Receive(t) => PlacedReceive(s, t);
    case Check => PlacedCheck(s);
    case Wait => PlacedWait(s);
    case Get => PlacedGet(s);
    case Dispatch => PlacedDispatch(s);
    case Reply => PlacedReply(s);
  }

  lemma PlacedStep(s: State, a: Action)
    requires Placed(s)
    ensures Placed(Next(s, a))
  {
    PlacedMove(s, a);
    PlacedEngineMove(Move(s, a), Next(s, a));
  }

  // ---- What was answered -------------------------------------------------

  function Asked(log: seq<Entry>): seq<Req> {
    seq(|log|, i requires 0 <= i < |log| => log[i].req)
  }

  function Answers(log: seq<Entry>): seq<Req> {
    seq(|log|, i requires 0 <= i < |log| => log[i].reply)
  }

  /** The log is a sequential run of the specification from the empty table to the current one. */
  predicate Served(s: State) {
    && s.table == Runs.Exec(map[], Asked(s.log))
    && Answers(s.log) == Runs.Replies(map[], Asked(s.log))
    && (forall i :: 0 <= i < |s.log| ==> s.log[i].time < s.clock)
    && (forall i, j :: 0 <= i < j < |s.log| ==> s.log[i].time < s.log[j].time)
  }

  predicate IsDone(x: Msg) {
    x.place == Answered || x.place == OnReplyPort
  }

  /** A message holds its question until it is dispatched, and then the answer in the log. */
  predicate MsgValue(s: State, m: MsgId)
    requires m in s.mem
  {
    var x := s.mem[m];
    && x.begun <= s.clock
    && (!IsDone(x) ==> x.req == x.asked)
    && (IsDone(x) ==> (
          && 0 <= x.index < |s.log| && x.begun <= s.log[x.index].time
          && s.log[x.index] == Entry(x.sender, x.asked, x.req, s.log[x.index].time)))
  }

  /** The questions and answers of one task in the log. */
  function Project(log: seq<Entry>, t: Task): seq<(Req, Req)> {
    if log == [] then []
    else
      var e := log[|log| - 1];
      Project(log[..|log| - 1], t) + if e.task == t then [(e.req, e.reply)] else []
  }

  function Done(cs: seq<Call>): seq<(Req, Req)> {
    seq(|cs|, i requires 0 <= i < |cs| => (cs[i].req, cs[i].reply))
  }

  /** The call of `t` that has been dispatched and has not returned. */
  function Outstanding(s: State, t: Task): seq<(Req, Req)> {
    if t in s.pc && s.pc[t].Busy? && s.pc[t].m in s.mem && IsDone(s.mem[s.pc[t].m])
    then [(s.mem[s.pc[t].m].asked, s.mem[s.pc[t].m].req)] else []
  }

  /** A completed call took effect at its place in the log, between its beginning and its end. */
  predicate CallInLog(s: State, t: Task, c: Call) {
    && c.index < |s.log| && c.begun <= s.log[c.index].time < c.returned <= s.clock
    && s.log[c.index] == Entry(t, c.req, c.reply, s.log[c.index].time)
  }

  predicate CallsInLog(s: State, t: Task)
    requires t in s.calls
  {
    && Project(s.log, t) == Done(s.calls[t]) + Outstanding(s, t)
    && forall k :: 0 <= k < |s.calls[t]| ==> CallInLog(s, t, s.calls[t][k])
  }

  ghost predicate Valued(s: State) {
    && Served(s)
    && (forall m :: m in s.mem ==> MsgValue(s, m))
    && (forall t :: t in s.pc && t in s.calls ==> CallsInLog(s, t))
  }

  /** Every client in a call owns a message of its own. */
  predicate Owners(s: State) {
    forall t :: t in s.pc && s.pc[t].Busy? ==> s.pc[t].m in s.mem && s.mem[s.pc[t].m].sender == t
  }

  predicate SameContents(x: Msg, y: Msg) {
    && y.req == x.req && y.asked == x.asked && y.sender == x.sender && y.begun == x.begun && y.index == x.index
    && (IsDone(y) <==> IsDone(x))
  }

  /** A step that dispatches nothing, completes no call, and changes no question or answer. Only the
      client `t` may move, and only while its message is not answered. */
  lemma ValuedQuiet(s: State, s': State, t: Task)
    requires Owners(s) && Valued(s) && s'.log == s.log && s'.table == s.table && s'.calls == s.calls
    requires s.clock <= s'.clock && s'.pc.Keys == s.pc.Keys
    requires forall u :: u in s.pc && u != t ==> s'.pc[u] == s.pc[u]
    requires forall u :: u in s.pc && u != t && s.pc[u].Busy? ==> s.pc[u].m in s'.mem
    requires forall m :: m in s'.mem ==>
               if m in s.mem then SameContents(s.mem[m], s'.mem[m])
               else !IsDone(s'.mem[m]) && s'.mem[m].req == s'.mem[m].asked && s'.mem[m].begun <= s'.clock
    requires Outstanding(s', t) == Outstanding(s, t)
    ensures Valued(s')
  {
    forall m | m in s'.mem
      ensures MsgValue(s', m)
    {
      assert m in s.mem ==> MsgValue(s, m);
    }
    forall u | u in s'.pc && u in s'.calls
      ensures CallsInLog(s', u)
    {
      assert CallsInLog(s, u);
      assert Outstanding(s', u) == Outstanding(s, u);
    }
  }

  lemma ValuedBegin(s: State, t: Task, m: MsgId, req: Req)
    requires Owners(s) && Valued(s)
    ensures Valued(DoBegin(s, t, m, req))
  {
    var s' := DoBegin(s, t, m, req);
    if s' != s {
      ValuedQuiet(s, s', t);
    }
  }

  lemma ValuedGiveUp(s: State, t: Task, s': State)
    requires Owners(s) && Valued(s) && In(s, t, Begun) && !IsDone(s.mem[s.pc[t].m])
    requires s' == s.(pc := s.pc[t := Idle], mem := s.mem - {s.pc[t].m})
    ensures Valued(s')
  {
    ValuedQuiet(s, s', t);
  }

  lemma ValuedGotPort(s: State, t: Task, p: PortId, s': State)
    requires Owners(s) && Valued(s) && In(s, t, Begun)
    requires s' == s.(pc := s.pc[t := Busy(Ported, s.pc[t].m, p)], slots := s'.slots, ports := s'.ports)
    ensures Valued(s')
  {
    ValuedQuiet(s, s', t);
  }

  lemma ValuedEnsurePort(s: State, t: Task, alloc: Option<PortId>)
    requires Owners(s) && Valued(s) && (In(s, t, Begun) ==> !IsDone(s.mem[s.pc[t].m]))
    ensures Valued(DoEnsurePort(s, t, alloc))
  {
    if In(s, t, Begun) && (alloc.Some? ==> alloc.value !in s.ports) {
      var p := Ensure(s.slots, t, alloc).1;
      if p.None? {
        ValuedGiveUp(s, t, DoEnsurePort(s, t, alloc));
      } else {
        ValuedGotPort(s, t, p.value, DoEnsurePort(s, t, alloc));
      }
    }
  }

  lemma ValuedPut(s: State, t: Task)
    requires Owners(s) && Valued(s) && (In(s, t, Ported) ==> !IsDone(s.mem[s.pc[t].m]))
    ensures Valued(DoPut(s, t))
  {
    var s' := DoPut(s, t);
    if In(s, t, Ported) {
      ValuedQuiet(s, s', t);
    }
  }

  /** Nobody moves, nothing is dispatched, and no message changes what it says. */
  predicate SameAnswers(s: State, s': State) {
    && s'.pc == s.pc && s'.log == s.log && s'.table == s.table && s'.calls == s.calls && s.clock <= s'.clock
    && s'.mem.Keys == s.mem.Keys && forall m :: m in s.mem ==> SameContents(s.mem[m], s'.mem[m])
  }

  /** The engine takes, or returns, a message without changing what it says. */
  lemma ValuedEngine(s: State, s': State)
    requires Owners(s) && Valued(s) && SameAnswers(s, s')
    ensures Valued(s')
  {
    forall m | m in s'.mem
      ensures MsgValue(s', m)
    {
      assert MsgValue(s, m);
    }
    forall u | u in s'.pc && u in s'.calls
      ensures CallsInLog(s', u)
    {
      assert CallsInLog(s, u);
      assert Outstanding(s', u) == Outstanding(s, u);
    }
  }

  lemma ValuedReceive(s: State, t: Task)
    requires Owners(s) && Valued(s)
    requires In(s, t, Waiting) && s.pc[t].p in s.ports && s.ports[s.pc[t].p] != [] ==> IsDone(s.mem[s.pc[t].m])
    ensures Valued(DoReceive(s, t))
  {
    var s' := DoReceive(s, t);
    if s' != s {
      var m := s.pc[t].m;
      assert MsgValue(s, m);
      forall k | k in s'.mem
        ensures MsgValue(s', k)
      {
        assert MsgValue(s, k);
      }
      forall u | u in s'.pc && u in s'.calls
        ensures CallsInLog(s', u)
      {
        assert CallsInLog(s, u);
        if u == t {
          CallReturns(s, s', t);
        } else {
          assert Outstanding(s', u) == Outstanding(s, u);
        }
      }
    }
  }

  /** The caller's call is complete, with the answer in its message. */
  lemma CallReturns(s: State, s': State, t: Task)
    requires In(s, t, Waiting) && s.pc[t].p in s.ports && s.ports[s.pc[t].p] != [] && s' == DoReceive(s, t)
    requires IsDone(s.mem[s.pc[t].m]) && MsgValue(s, s.pc[t].m) && s.mem[s.pc[t].m].sender == t
    requires Served(s) && CallsInLog(s, t)
    ensures CallsInLog(s', t)
  {
    assert Outstanding(s', t) == [];
    assert Done(s'.calls[t]) == Done(s.calls[t]) + Outstanding(s, t);
  }

  lemma ServedAppend(log: seq<Entry>, e: Entry, t: Table)
    requires t == Runs.Exec(map[], Asked(log)) && Answers(log) == Runs.Replies(map[], Asked(log))
    requires e.reply == Step(t, e.req).1
    ensures Runs.Exec(map[], Asked(log + [e])) == Step(t, e.req).0
    ensures Answers(log + [e]) == Runs.Replies(map[], Asked(log + [e]))
  {
    var qs := Asked(log + [e]);
    assert qs == Asked(log) + [e.req];
    assert qs[..|log|] == Asked(log) && qs[..|log| + 1] == qs;
    Runs.ExecOne(map[], qs, |log|);
    Runs.RepliesOne(map[], qs, |log|);
    assert Answers(log + [e]) == Answers(log) + [e.reply];
  }

  /** The engine answers the message it holds: one more entry in the log. */
  lemma ValuedAnswer(s: State, m: MsgId, reply: Req, s': State)
    requires Owners(s) && Valued(s) && m in s.mem && !IsDone(s.mem[m])
    requires s.mem[m].sender in s.pc && s.pc[s.mem[m].sender].Busy? && s.pc[s.mem[m].sender].m == m
    requires reply == Step(s.table, s.mem[m].req).1 && s'.table == Step(s.table, s.mem[m].req).0
    requires s'.mem == s.mem[m := s.mem[m].(req := reply, place := Answered, index := |s.log|)]
    requires s'.log == s.log + [Entry(s.mem[m].sender, s.mem[m].req, reply, s.clock)]
    requires s'.pc == s.pc && s'.calls == s.calls && s'.clock == s.clock + 1
    ensures Valued(s')
  {
    var x := s.mem[m];
    var e := Entry(x.sender, x.req, reply, s.clock);
    assert MsgValue(s, m);
    ServedAppend(s.log, e, s.table);
    forall k | k in s'.mem
      ensures MsgValue(s', k)
    {
      assert MsgValue(s, k);
    }
    forall u | u in s'.pc && u in s'.calls
      ensures CallsInLog(s', u)
    {
      assert CallsInLog(s, u);
      CallsAnswer(s, m, e, s', u);
    }
  }

  lemma CallsAnswer(s: State, m: MsgId, e: Entry, s': State, u: Task)
    requires Owners(s) && m in s.mem && !IsDone(s.mem[m]) && s.mem[m].req == s.mem[m].asked
    requires e.task == s.mem[m].sender && e.req == s.mem[m].req
    requires e.task in s.pc && s.pc[e.task].Busy? && s.pc[e.task].m == m
    requires s'.mem == s.mem[m := s.mem[m].(req := e.reply, place := Answered, index := |s.log|)]
    requires s'.log == s.log + [e] && s'.pc == s.pc && s'.calls == s.calls && s.clock <= s'.clock
    requires u in s.pc && u in s.calls && CallsInLog(s, u)
    ensures CallsInLog(s', u)
  {
  }

  // ---- Order of the request port, wakeups, draining ----------------------

  function PutsOfLog(log: seq<Entry>): seq<(Task, Req)> {
    seq(|log|, i requires 0 <= i < |log| => (log[i].task, log[i].req))
  }

  function PutsOfQueue(mem: map<MsgId, Msg>, q: seq<MsgId>): seq<(Task, Req)>
    requires forall i :: 0 <= i < |q| ==> q[i] in mem
  {
    seq(|q|, i requires 0 <= i < |q| => (mem[q[i]].sender, mem[q[i]].asked))
  }

  /** The message the engine has taken off the port and not yet dispatched. */
  function InHand(s: State): seq<(Task, Req)> {
    if s.engine.Holding? && s.engine.m in s.mem
    then [(s.mem[s.engine.m].sender, s.mem[s.engine.m].asked)] else []
  }

  predicate Pausing(e: EnginePc) {
    e.AtCheck? || e.AtWait? || e.Stopped?
  }

  /** Requests are dispatched in the order in which they were put; a request that is put while the
      engine is not draining leaves the signal pending; at a pause all that was put before the last
      empty GetMsg has been dispatched. */
  predicate Ordered(s: State) {
    && (forall i :: 0 <= i < |s.request| ==> s.request[i] in s.mem)
    && s.puts == PutsOfLog(s.log) + InHand(s) + PutsOfQueue(s.mem, s.request)
    && ((s.engine.AtCheck? || s.engine.AtWait?) && s.request != [] ==> s.signal)
    && s.drained <= |s.log| && (Pausing(s.engine) ==> |s.log| == s.drained)
  }

  /** No message is put, taken or dispatched, and none in the port or in the engine's hands changes. */
  predicate SameQueue(s: State, s': State) {
    && s'.request == s.request && s'.log == s.log && s'.puts == s.puts && s'.drained == s.drained
    && s'.signal == s.signal && (s'.engine == s.engine || (s.engine.Replying? && s'.engine.AtGet?))
    && (forall i :: 0 <= i < |s.request| ==> s.request[i] in s'.mem)
    && (forall m :: m in s.mem && m in s'.mem ==>
          s'.mem[m].sender == s.mem[m].sender && s'.mem[m].asked == s.mem[m].asked)
    && (s.engine.Holding? ==> s.engine.m in s.mem && s.engine.m in s'.mem)
  }

  lemma OrderedQuiet(s: State, s': State)
    requires Ordered(s) && SameQueue(s, s')
    ensures Ordered(s')
  {
    assert InHand(s') == InHand(s);
    forall i | 0 <= i < |s.request|
      ensures PutsOfQueue(s'.mem, s'.request)[i] == PutsOfQueue(s.mem, s.request)[i]
    {
      var k := s.request[i];
      assert k in s.mem && k in s'.mem;
      assert s'.mem[k].sender == s.mem[k].sender && s'.mem[k].asked == s.mem[k].asked;
      assert PutsOfQueue(s.mem, s.request)[i] == (s.mem[k].sender, s.mem[k].asked);
    }
    assert PutsOfQueue(s'.mem, s'.request) == PutsOfQueue(s.mem, s.request);
  }

  lemma OrderedPut(s: State, t: Task)
    requires Ordered(s) && In(s, t, Ported)
    requires s.mem[s.pc[t].m].sender == t && s.mem[s.pc[t].m].req == s.mem[s.pc[t].m].asked
    ensures Ordered(DoPut(s, t))
  {
    var s', m := DoPut(s, t), s.pc[t].m;
    if s' != s {
      assert InHand(s') == InHand(s);
      assert PutsOfQueue(s'.mem, s'.request) == PutsOfQueue(s.mem, s.request) + [(t, s.mem[m].asked)];
      assert (PutsOfLog(s.log) + InHand(s) + PutsOfQueue(s.mem, s.request)) + [(t, s.mem[m].asked)]
          == PutsOfLog(s.log) + InHand(s) + (PutsOfQueue(s.mem, s.request) + [(t, s.mem[m].asked)]);
    }
  }

  lemma OrderedGet(s: State)
    requires Ordered(s)
    ensures Ordered(DoGet(s))
  {
    var s' := DoGet(s);
    if s.engine.AtGet? && s.request != [] {
      var m := s.request[0];
      assert InHand(s') == [(s.mem[m].sender, s.mem[m].asked)];
      assert PutsOfQueue(s.mem, s.request) == InHand(s') + PutsOfQueue(s'.mem, s'.request);
    }
  }

  lemma OrderedDispatch(s: State)
    requires Ordered(s)
    requires s.engine.Holding? && s.engine.m in s.mem ==> s.mem[s.engine.m].req == s.mem[s.engine.m].asked
    ensures Ordered(DoDispatch(s))
  {
  }

  lemma OrderedPause(s: State)
    requires Ordered(s)
    ensures Ordered(DoCheck(s)) && Ordered(DoWait(s))
  {
  }
}
