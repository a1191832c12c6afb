/** The message protocol between any number of client tasks and the engine: a request port, one
    reply port per task, and messages that are filled, answered and read in place. */
module Rpc {
  import opened Ipc
  import opened SocketSpec
  import opened Wrappers
  import opened ReplySlots

  type MsgId = int

  /** Who holds a message: its sender, the request port, the engine before or after dispatching it, or
      the reply port. */
  datatype Place = WithSender | OnRequestPort | AtEngine | Answered | OnReplyPort

  /** A message in memory: its contents and reply port, and for the record who sent it, what was
      asked, when the call began, and its position in the engine's log once dispatched. */
  datatype Msg = Msg(req: Req, replyPort: PortId, sender: Task, asked: Req, begun: nat, place: Place, index: int)

  datatype Stage = Begun | Ported | Waiting

  /** A client is idle or inside a call with message `m` (and, from Ported on, reply port `p`). */
  datatype Client = Idle | Busy(stage: Stage, m: MsgId, p: PortId)

  /** The engine's place in its loop. */
  datatype EnginePc = AtCheck | AtWait | AtGet | Holding(m: MsgId) | Replying(m: MsgId) | Stopped

  /** A dispatched request: sender, question, answer, time. */
  datatype Entry = Entry(task: Task, req: Req, reply: Req, time: nat)

  /** A completed call: question, answer, position in the log, when it began and when it returned. */
  datatype Call = Call(req: Req, reply: Req, index: nat, begun: nat, returned: nat)

  datatype State = State(
    pc: map<Task, Client>,
    mem: map<MsgId, Msg>,
    slots: seq<Slot>,
    ports: map<PortId, seq<MsgId>>,      // reply ports
    request: seq<MsgId>,                 // the request port
    signal: bool,                        // the engine's port signal is pending
    engine: EnginePc,
    table: Table,
    shutdown: bool,
    clock: nat,                          // history from here on: number of steps so far
    log: seq<Entry>,                     // requests in the order of their dispatch
    puts: seq<(Task, Req)>,              // requests in the order of their PutMsg
    drained: nat,                        // |puts| when GetMsg last found the port empty
    calls: map<Task, seq<Call>>)         // completed calls of each task, in program order

  function Init(tasks: set<Task>): State {
    State(map t | t in tasks :: Idle, map[], seq(SLOT_MAX, _ => Unused), map[], [], false, AtCheck,
          map[], false, 0, [], [], 0, map t | t in tasks :: [])
  }

  datatype Action =
    | Begin(t: Task, m: MsgId, req: Req)
    | EnsurePort(t: Task, alloc: Option<PortId>)
    | Put(t: Task)
    | Receive(t: Task)
    | Check
    | Wait
    | Get
    | Dispatch
    | Reply

  // ---- Client steps (netstack_ipc_call) ----------------------------------

  predicate In(s: State, t: Task, stage: Stage) {
    && t in s.pc && s.pc[t].Busy? && s.pc[t].stage == stage && s.pc[t].m in s.mem && t in s.calls
  }

  /** A caller fills a request on its stack, at an address no other call uses. */
  function DoBegin(s: State, t: Task, m: MsgId, req: Req): State {
    if t in s.pc && s.pc[t].Idle? && m !in s.mem then
      s.(pc := s.pc[t := Busy(Begun, m, -1)], mem := s.mem[m := Msg(req, -1, t, req, s.clock, WithSender, -1)])
    else s
  }

  /** Finds or allocates the reply port; without one the call fails before anything is sent. A newly
      allocated port is a new object, and empty. */
  function DoEnsurePort(s: State, t: Task, alloc: Option<PortId>): State {
    if In(s, t, Begun) && (alloc.Some? ==> alloc.value !in s.ports) then
      var (slots, p) := Ensure(s.slots, t, alloc);
      if p.None? then s.(pc := s.pc[t := Idle], mem := s.mem - {s.pc[t].m})
      else
        s.(pc := s.pc[t := Busy(Ported, s.pc[t].m, p.value)], slots := slots,
           ports := if p.value in s.ports then s.ports else s.ports[p.value := []])
    else s
  }

  /** PutMsg appends the message and sets the engine's port signal. The port exists until the engine
      has torn down. */
  function DoPut(s: State, t: Task): State {
    if In(s, t, Ported) && !s.engine.Stopped? then
      var m, p := s.pc[t].m, s.pc[t].p;
      var x := s.mem[m];
      s.(pc := s.pc[t := Busy(Waiting, m, p)], mem := s.mem[m := x.(replyPort := p, place := OnRequestPort)],
         request := s.request + [m], signal := true, puts := s.puts + [(t, x.req)])
    else s
  }

  /** WaitPort and GetMsg on the reply port; the answer is then read from the caller's own message,
      whatever message was taken off the port. */
  function DoReceive(s: State, t: Task): State {
    if In(s, t, Waiting) && s.pc[t].p in s.ports && s.ports[s.pc[t].p] != [] then
      var m, p := s.pc[t].m, s.pc[t].p;
      var x := s.mem[m];
      var c := Call(x.asked, x.req, if x.index < 0 then 0 else x.index, x.begun, s.clock);
      s.(pc := s.pc[t := Idle], mem := s.mem - {m}, ports := s.ports[p := s.ports[p][1..]],
         calls := s.calls[t := s.calls[t] + [c]])
    else s
  }

  // ---- Engine steps (engine_process_main) --------------------------------

  function DoCheck(s: State): State {
    if s.engine.AtCheck? then s.(engine := if s.shutdown then Stopped else AtWait) else s
  }

  /** Wait returns only when the port signal is pending, and clears it. */
  function DoWait(s: State): State {
    if s.engine.AtWait? && s.signal then s.(engine := AtGet, signal := false) else s
  }

  function DoGet(s: State): State {
    if !s.engine.AtGet? then s
    else if s.request == [] then s.(engine := AtCheck, drained := |s.puts|)
    else
      var m := s.request[0];
      if m !in s.mem then s
      else s.(engine := Holding(m), request := s.request[1..], mem := s.mem[m := s.mem[m].(place := AtEngine)])
  }

  function DoDispatch(s: State): State {
    if s.engine.Holding? && s.engine.m in s.mem then
      var m := s.engine.m;
      var x := s.mem[m];
      var (table, reply) := Step(s.table, x.req);
      s.(engine := Replying(m), table := table, shutdown := s.shutdown || x.req.body.Shutdown?,
         mem := s.mem[m := x.(req := reply, place := Answered, index := |s.log|)],
         log := s.log + [Entry(x.sender, x.req, reply, s.clock)])
    else s
  }

  function DoReply(s: State): State {
    if s.engine.Replying? && s.engine.m in s.mem && s.mem[s.engine.m].replyPort in s.ports then
      var m := s.engine.m;
      var p := s.mem[m].replyPort;
      s.(engine := AtGet, mem := s.mem[m := s.mem[m].(place := OnReplyPort)], ports := s.ports[p := s.ports[p] + [m]])
    else s
  }

  /** What an action does; nothing when it is not possible. */
  function Move(s: State, a: Action): State {
    match a
    case Begin(t, m, req) => DoBegin(s, t, m, req)
    case EnsurePort(t, alloc) => DoEnsurePort(s, t, alloc)
    case Put(t) => DoPut(s, t)
    case Receive(t) => DoReceive(s, t)
    case Check => DoCheck(s)
    case Wait => DoWait(s)
    case Get => DoGet(s)
    case Dispatch => DoDispatch(s)
    case Reply => DoReply(s)
  }

  /** One step of the system. */
  function Next(s: State, a: Action): State {
    Move(s, a).(clock := s.clock + 1)
  }

  function Exec(s: State, acts: seq<Action>): State {
    if acts == [] then s else Next(Exec(s, acts[..|acts| - 1]), acts[|acts| - 1])
  }
}
