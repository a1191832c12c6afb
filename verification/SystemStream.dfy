/** What concurrent clients get from the socket layer: the properties of sequential runs hold of the
    questions and answers the engine exchanges with its callers in every interleaving. */
module SystemStream {
  import opened Ipc
  import opened SocketSpec
  import opened ReplySlots
  import opened Rpc
  import opened RpcSafety
  import opened Linearizability
  import opened Pairing
  import opened Stream
  import Runs
  import Client

  // ---- Bytes in the log --------------------------------------------------

  /** The bytes the answer says were accepted from descriptor `a`. */
  function SentBy(e: Entry, a: int): seq<byte> {
    if e.req.body.Send? && e.req.body.sock == a && e.reply.err == OK
       && e.reply.body.Send? && 0 <= e.reply.body.sent <= MAX_PAYLOAD
    then e.req.body.data[..e.reply.body.sent] else []
  }

  /** The bytes the answer delivers to descriptor `b`. */
  function ReceivedBy(e: Entry, b: int): seq<byte> {
    if e.req.body.Recv? && e.req.body.sock == b && e.reply.err == OK
       && e.reply.body.Recv? && 0 <= e.reply.body.got <= MAX_PAYLOAD
    then e.reply.body.buf[..e.reply.body.got] else []
  }

  predicate ClosedIn(log: seq<Entry>, fd: int) {
    exists i :: 0 <= i < |log| && log[i].req.body == Close(fd)
  }

  /** All bytes callers were told were accepted from `a`, until a close of `a`. */
  function SentIn(log: seq<Entry>, a: int): seq<byte> {
    if log == [] then []
    else SentIn(log[..|log| - 1], a) + if ClosedIn(log[..|log| - 1], a) then [] else SentBy(log[|log| - 1], a)
  }

  /** All bytes callers got from `b`. */
  function ReceivedIn(log: seq<Entry>, b: int): seq<byte> {
    if log == [] then [] else ReceivedIn(log[..|log| - 1], b) + ReceivedBy(log[|log| - 1], b)
  }

  lemma ClosesAsked(log: seq<Entry>, fd: int)
    ensures ClosedIn(log, fd) <==> Closes(Asked(log), fd)
  {
    assert forall i :: 0 <= i < |log| ==> Asked(log)[i] == log[i].req;
    if ClosedIn(log, fd) {
      var i :| 0 <= i < |log| && log[i].req.body == Close(fd);
      assert Asked(log)[i].body == Close(fd);
    }
  }

  /** The log is a run from `t`. */
  predicate RunFrom(t: Table, log: seq<Entry>) {
    Answers(log) == Runs.Replies(t, Asked(log))
  }

  lemma RunFromFront(t: Table, log: seq<Entry>)
    requires log != [] && RunFrom(t, log)
    ensures var n := |log| - 1;
            && RunFrom(t, log[..n]) && Asked(log[..n]) == Asked(log)[..n]
            && log[n].reply == Step(Runs.Exec(t, Asked(log[..n])), log[n].req).1
  {
    var n := |log| - 1;
    assert Asked(log[..n]) == Asked(log)[..n] && Answers(log[..n]) == Answers(log)[..n];
    assert Asked(log)[n] == log[n].req && Answers(log)[n] == log[n].reply;
  }

  lemma EntryBytes(t: Table, e: Entry, fd: int)
    requires e.reply == Step(t, e.req).1
    ensures SentBy(e, fd) == AcceptedFrom(t, e.req, fd) && ReceivedBy(e, fd) == DeliveredTo(t, e.req, fd)
  {
  }

  /** What callers were told is what the sequential run did. */
  lemma {:induction false} BytesOfRun(t: Table, log: seq<Entry>, fd: int)
    requires RunFrom(t, log)
    ensures SentIn(log, fd) == Sent(t, Asked(log), fd) && ReceivedIn(log, fd) == Received(t, Asked(log), fd)
  {
    if log != [] {
      var n := |log| - 1;
      RunFromFront(t, log);
      BytesOfRun(t, log[..n], fd);
      ClosesAsked(log[..n], fd);
      EntryBytes(Runs.Exec(t, Asked(log[..n])), log[n], fd);
      LastBytes(t, Asked(log[..n]), log[n].req, Asked(log), fd);
    }
  }

  lemma LastBytes(t: Table, qs: seq<Req>, q: Req, all: seq<Req>, fd: int)
    requires all != [] && all[..|all| - 1] == qs && all[|all| - 1] == q
    ensures Sent(t, all, fd) == Sent(t, qs, fd) + if Closes(qs, fd) then [] else AcceptedFrom(Runs.Exec(t, qs), q, fd)
    ensures Received(t, all, fd) == Received(t, qs, fd) + DeliveredTo(Runs.Exec(t, qs), q, fd)
  {
  }

  /** The log after position `k` is a run from the table that its first `k + 1` entries lead to. */
  lemma SplitLog(log: seq<Entry>, k: nat)
    requires k < |log| && RunFrom(map[], log)
    ensures var t := Runs.Exec(map[], Asked(log[..k]));
            var u := Step(t, log[k].req).0;
            && Asked(log) == Asked(log[..k]) + [log[k].req] + Asked(log[k + 1..])
            && Step(t, log[k].req).1 == log[k].reply && RunFrom(u, log[k + 1..])
            && Runs.Exec(map[], Asked(log)) == Runs.Exec(u, Asked(log[k + 1..]))
  {
    var pre, q, post := Asked(log[..k]), log[k].req, Asked(log[k + 1..]);
    assert Asked(log) == pre + [q] + post;
    Runs.RepliesAppend(map[], pre + [q], post);
    Runs.RepliesAppend(map[], pre, [q]);
    Runs.ExecAppend(map[], pre + [q], post);
    Runs.ExecAppend(map[], pre, [q]);
    var t := Runs.Exec(map[], pre);
    assert Runs.Exec(t, [q]) == Step(t, q).0 && Runs.Replies(t, [q]) == [Step(t, q).1];
    assert Answers(log)[k] == log[k].reply && Answers(log)[k + 1..] == Answers(log[k + 1..]);
  }

  lemma LogIsRun(tasks: set<Task>, acts: seq<Action>)
    ensures var s := Exec(Init(tasks), acts); RunFrom(map[], s.log) && s.table == Runs.Exec(map[], Asked(s.log))
  {
    ServedInPortOrder(tasks, acts);
  }

  // ---- Streams -----------------------------------------------------------

  /** While `b` is open, the bytes that callers were told were accepted from `a` are those that callers
      received from `b`, followed by those still queued at `b` in table `u`. */
  predicate Flows(log: seq<Entry>, a: int, b: int, u: Table) {
    !ClosedIn(log, b) ==> b in u && SentIn(log, a) == ReceivedIn(log, b) + u[b].rx
  }

  lemma FlowsInRun(t: Table, log: seq<Entry>, a: int, b: int, u: Table)
    requires RunFrom(t, log)
    requires !Closes(Asked(log), b) ==> b in u && Sent(t, Asked(log), a) == Received(t, Asked(log), b) + u[b].rx
    ensures Flows(log, a, b, u)
  {
    BytesOfRun(t, log, a);
    BytesOfRun(t, log, b);
    ClosesAsked(log, b);
  }

  lemma AcceptAnswered(t: Table, q: Req)
    requires q.body.Accept? && Step(t, q).1.err == OK
    ensures q.body.sock in t && t[q.body.sock].backlog != [] && Step(t, q).1.body.Accept?
  {
  }

  lemma {:induction false} LogEndToEnd(log: seq<Entry>, k: nat)
    requires k < |log| && RunFrom(map[], log) && Tame(map[], Asked(log))
    requires log[k].req.body.Accept? && log[k].reply.err == OK
    ensures var t, u := Runs.Exec(map[], Asked(log[..k])), Runs.Exec(map[], Asked(log));
            var l, post := log[k].req.body.sock, log[k + 1..];
            && l in t && t[l].backlog != [] && log[k].reply.body.Accept?
            && (var a, b := t[l].backlog[0], log[k].reply.body.newSock;
                a != b && Flows(post, a, b, u) && Flows(post, b, a, u))
  {
    var t, q, post := Runs.Exec(map[], Asked(log[..k])), log[k].req, log[k + 1..];
    SplitLog(log, k);
    AcceptAnswered(t, q);
    EndToEnd(Asked(log[..k]), q, Asked(post));
    var a, b := t[q.body.sock].backlog[0], log[k].reply.body.newSock;
    FlowsInRun(Step(t, q).0, post, a, b, Runs.Exec(map[], Asked(log)));
    FlowsInRun(Step(t, q).0, post, b, a, Runs.Exec(map[], Asked(log)));
  }

  /** End to end, between concurrent clients: in every interleaving whose log is tame, once an accept has
      been answered, the bytes that callers were told were accepted at one end are the bytes callers
      received at the other, followed by those still queued there; in both directions. */
  lemma {:induction false} ConcurrentEndToEnd(tasks: set<Task>, acts: seq<Action>, k: nat)
    requires var s := Exec(Init(tasks), acts);
             && Tame(map[], Asked(s.log)) && k < |s.log| && s.log[k].req.body.Accept? && s.log[k].reply.err == OK
    ensures var s := Exec(Init(tasks), acts);
            var t := Runs.Exec(map[], Asked(s.log[..k]));
            var l, post := s.log[k].req.body.sock, s.log[k + 1..];
            && l in t && t[l].backlog != [] && s.log[k].reply.body.Accept?
            && (var a, b := t[l].backlog[0], s.log[k].reply.body.newSock;
                a != b && Flows(post, a, b, s.table) && Flows(post, b, a, s.table))
  {
    LogIsRun(tasks, acts);
    LogEndToEnd(Exec(Init(tasks), acts).log, k);
  }

  /** Close and reuse, between concurrent clients: after a close of one end has been answered, callers
      receive at the other end exactly the bytes queued for it and then end of file, until it is closed
      itself, whatever the freed descriptor is used for. */
  lemma {:induction false} ConcurrentCloseAndReuse(tasks: set<Task>, acts: seq<Action>, k: nat, a: int, b: int)
    requires var s := Exec(Init(tasks), acts);
             && Tame(map[], Asked(s.log)) && k < |s.log| && s.log[k].req.body == Close(a)
             && Linked(Runs.Exec(map[], Asked(s.log[..k])), a, b) && !ClosedIn(s.log[k + 1..], b)
    ensures var s := Exec(Init(tasks), acts);
            var t := Runs.Exec(map[], Asked(s.log[..k]));
            b in s.table && t[b].rx == ReceivedIn(s.log[k + 1..], b) + s.table[b].rx && AtEof(s.table, b)
  {
    LogIsRun(tasks, acts);
    LogCloseAndReuse(Exec(Init(tasks), acts).log, k, a, b);
  }

  lemma {:induction false} LogCloseAndReuse(log: seq<Entry>, k: nat, a: int, b: int)
    requires k < |log| && RunFrom(map[], log) && Tame(map[], Asked(log)) && log[k].req.body == Close(a)
    requires Linked(Runs.Exec(map[], Asked(log[..k])), a, b) && !ClosedIn(log[k + 1..], b)
    ensures var t, u := Runs.Exec(map[], Asked(log[..k])), Runs.Exec(map[], Asked(log));
            b in u && t[b].rx == ReceivedIn(log[k + 1..], b) + u[b].rx && AtEof(u, b)
  {
    var pre, close, post := Asked(log[..k]), log[k].req, Asked(log[k + 1..]);
    SplitLog(log, k);
    ClosesAsked(log[k + 1..], b);
    RunCloseAndReuse(pre, close, post, a, b);
    BytesOfRun(Step(Runs.Exec(map[], pre), close).0, log[k + 1..], b);
  }

  lemma {:induction false} RunCloseAndReuse(pre: seq<Req>, close: Req, post: seq<Req>, a: int, b: int)
    requires Tame(map[], pre + [close] + post) && close.body == Close(a)
    requires Linked(Runs.Exec(map[], pre), a, b) && !Closes(post, b)
    ensures var t, u := Runs.Exec(map[], pre), Runs.Exec(map[], pre + [close] + post);
            b in u && t[b].rx == Received(Step(t, close).0, post, b) + u[b].rx && AtEof(u, b)
  {
    assert pre + [close] + post == pre + ([close] + post);
    TameSuffix(map[], pre, [close] + post);
    PairingRun(map[], pre);
    CloseAndReuse(Runs.Exec(map[], pre), close, post, a, b);
    Runs.ExecAppend(map[], pre, [close] + post);
  }

  // ---- Single calls ------------------------------------------------------

  /** Each completed call of each client got the answer of one atomic step of the sequential table, at its
      place in the log, whatever the other clients were doing. */
  lemma {:induction false} CallIsAtomic(tasks: set<Task>, acts: seq<Action>, t: Task, i: nat)
    requires var s := Exec(Init(tasks), acts); t in s.pc && t in s.calls && i < |s.calls[t]|
    ensures var s := Exec(Init(tasks), acts);
            var c := s.calls[t][i];
            && CallInLog(s, t, c)
            && (Runs.Exec(map[], Asked(s.log[..c.index + 1])), c.reply)
               == Step(Runs.Exec(map[], Asked(s.log[..c.index])), c.req)
  {
    var s := Exec(Init(tasks), acts);
    var c := s.calls[t][i];
    RealTimeOrder(tasks, acts, t, i, t, i);
    LogIsRun(tasks, acts);
    EntryIsStep(s.log, c.index);
  }

  lemma EntryIsStep(log: seq<Entry>, k: nat)
    requires k < |log| && RunFrom(map[], log)
    ensures (Runs.Exec(map[], Asked(log[..k + 1])), log[k].reply) == Step(Runs.Exec(map[], Asked(log[..k])), log[k].req)
  {
    SplitLog(log, k);
    assert Asked(log[..k]) == Asked(log)[..k] && Asked(log[..k + 1]) == Asked(log)[..k + 1];
    Runs.ExecOne(map[], Asked(log), k);
  }

  /** A completed send of a concurrent client returns exactly how much of its bytes were appended. */
  lemma {:induction false} ConcurrentSend(tasks: set<Task>, acts: seq<Action>, t: Task, i: nat)
    requires var s := Exec(Init(tasks), acts);
             && t in s.pc && t in s.calls && i < |s.calls[t]|
             && s.calls[t][i].req.body.Send? && 0 <= s.calls[t][i].req.body.len <= MAX_PAYLOAD
    ensures var s := Exec(Init(tasks), acts);
            var c := s.calls[t][i];
            && c.index < |s.log|
            && Client.SendOutcome(Runs.Exec(map[], Asked(s.log[..c.index])),
                                  c.req.body.sock, c.req.body.data[..c.req.body.len],
                                  Runs.Exec(map[], Asked(s.log[..c.index + 1])), Client.Returned(c.reply))
  {
    var s := Exec(Init(tasks), acts);
    var c := s.calls[t][i];
    CallIsAtomic(tasks, acts, t, i);
    Client.SendAnswered(Runs.Exec(map[], Asked(s.log[..c.index])), c.req, c.req.body.data[..c.req.body.len]);
  }

  /** A completed recv of a concurrent client returns exactly the bytes that were taken off the queue. */
  lemma {:induction false} ConcurrentRecv(tasks: set<Task>, acts: seq<Action>, t: Task, i: nat)
    requires var s := Exec(Init(tasks), acts);
             && t in s.pc && t in s.calls && i < |s.calls[t]|
             && s.calls[t][i].req.body.Recv? && 0 <= s.calls[t][i].req.body.want <= MAX_PAYLOAD
    ensures var s := Exec(Init(tasks), acts);
            var c := s.calls[t][i];
            && c.index < |s.log| && c.reply.body.Recv? && (c.reply.err == OK ==> 0 <= c.reply.body.got <= MAX_PAYLOAD)
            && Client.RecvOutcome(Runs.Exec(map[], Asked(s.log[..c.index])), c.req.body.sock, c.req.body.want,
                                  Runs.Exec(map[], Asked(s.log[..c.index + 1])), Client.Returned(c.reply),
                                  if c.reply.err == OK then c.reply.body.buf[..c.reply.body.got] else [])
  {
    var s := Exec(Init(tasks), acts);
    var c := s.calls[t][i];
    CallIsAtomic(tasks, acts, t, i);
    Client.RecvAnswered(Runs.Exec(map[], Asked(s.log[..c.index])), c.req, c.req.body.want);
  }
}
