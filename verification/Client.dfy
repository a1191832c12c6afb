/** The client half of send and recv: the caller's buffer is copied into or out of a request, which
    makes one round trip to the engine. */
module Client {
  import opened Ipc
  import opened SocketSpec
  import opened DescriptorTable
  import opened EngineLoop
  import opened Wrappers
  import opened ReplySlots
  import Runs

  /** What the calls return when the engine cannot be reached. */
  const UNREACHABLE := -1

  /** What a send of `bytes` on `sock` may return, and how it changes the table. */
  predicate SendOutcome(t: Table, sock: int, bytes: seq<byte>, t': Table, rv: int) {
    if sock !in t then rv == EBADF && t' == t
    else if t[sock].kind != Connected || t[sock].peer !in t then rv == ENOTCONN && t' == t
    else
      var q := t[sock].peer;
      if |t[q].rx| >= RXBUF_SIZE then rv == EAGAIN && t' == t
      else
        && 0 <= rv <= |bytes| && |t[q].rx| + rv <= RXBUF_SIZE
        && (rv < |bytes| ==> |t[q].rx| + rv == RXBUF_SIZE)
        && t' == t[q := t[q].(rx := t[q].rx + bytes[..rv])]
  }

  /** What a recv of at most `max` bytes on `sock` may return, the bytes it delivers, and how it
      changes the table. */
  predicate RecvOutcome(t: Table, sock: int, max: nat, t': Table, rv: int, got: seq<byte>) {
    if sock !in t then rv == EBADF && t' == t && got == []
    else if t[sock].kind != Connected then rv == ENOTCONN && t' == t && got == []
    else if t[sock].rx == [] then rv == (if t[sock].peer in t then EAGAIN else 0) && t' == t && got == []
    else
      && sock in t' && rv == |got| && rv <= max && rv <= MAX_PAYLOAD
      && (rv < max && rv < MAX_PAYLOAD ==> t'[sock].rx == [])
      && t[sock].rx == got + t'[sock].rx && t' == t[sock := t[sock].(rx := t'[sock].rx)]
  }

  /** Bytes pushed by one send and taken by one recv arrive unchanged and in order behind what was
      already waiting, and nothing else in the table changes. */
  lemma SendThenRecv(t: Table, a: int, bytes: seq<byte>, u: Table, n: int, max: nat, v: Table, rv: int, got: seq<byte>)
    requires SendOutcome(t, a, bytes, u, n) && n >= 0
    requires RecvOutcome(u, t[a].peer, max, v, rv, got)
    requires t[t[a].peer].kind == Connected
    ensures var b := t[a].peer;
            && b in v && got + v[b].rx == t[b].rx + bytes[..n]
            && v == t[b := t[b].(rx := v[b].rx)]
  {
  }

  lemma LastServed(t: Table, qs: seq<Req>, q: Req)
    ensures (Runs.Exec(t, qs + [q]), Runs.Replies(t, qs + [q])[|qs|]) == Step(Runs.Exec(t, qs), q)
  {
  }

  /** The value a call returns for the answered request. */
  function Returned(q: Req): int {
    if q.err != OK then q.err else if q.body.Send? then q.body.sent else if q.body.Recv? then q.body.got else 0
  }

  lemma SendAnswered(t: Table, q: Req, bytes: seq<byte>)
    requires q.body.Send? && q.body.len == |bytes| <= MAX_PAYLOAD && q.body.data[..|bytes|] == bytes
    ensures var (t', r) := Step(t, q); r.body.Send? && SendOutcome(t, q.body.sock, bytes, t', Returned(r))
  {
    var (t', r) := DoSend(t, q);
    if r.err == OK {
      var n := r.body.sent;
      assert q.body.data[..n] == bytes[..n];
    }
  }

  lemma RecvAnswered(t: Table, q: Req, max: nat)
    requires q.body.Recv? && q.body.want == Min(max, MAX_PAYLOAD)
    ensures var (t', r) := Step(t, q);
            && r.body.Recv? && (r.err == OK ==> 0 <= r.body.got <= Min(max, MAX_PAYLOAD)) && r.err <= OK
            && RecvOutcome(t, q.body.sock, max, t', Returned(r), if r.err == OK then r.body.buf[..r.body.got] else [])
  {
  }

  class Client {
    const engine: Engine
    const replies: ReplyTable
    const me: Task

    constructor (engine: Engine, replies: ReplyTable, me: Task)
      ensures this.engine == engine && this.replies == replies && this.me == me
    {
      this.engine, this.replies, this.me := engine, replies, me;
    }

    ghost predicate Valid()
      reads engine, engine.table.entries
    {
      engine.Valid() && replies.slots.Length == SLOT_MAX
    }

    /** The table as the next request put finds it: after all those already in the port. */
    ghost function Reached(): Table
      requires Valid()
      reads engine, engine.table.entries, engine.port
    {
      Runs.Exec(engine.table.Abs(), engine.Pending())
    }

    /** The engine's port is found and the caller gets a reply port: it has one, or one can be
        allocated into an unused slot. */
    ghost predicate Reachable(found: bool, alloc: Option<PortId>)
      requires Valid()
      reads engine, engine.table.entries, replies.slots
    {
      found && (OwnsSlot(replies.slots[..], me) || (alloc.Some? && SomeUnused(replies.slots[..])))
    }

    /** One round trip: the request is answered in place, after those already in the port. `found` is
        whether the engine's port exists and `alloc` what allocating a reply port returns. */
    method IpcCall(r: NetstackReq, found: bool, alloc: Option<PortId>) returns (rc: int)
      requires Valid() && r !in engine.port
      modifies engine, engine.table.entries, engine.port, replies.slots, r
      ensures Valid() && (rc == 0 <==> old(Reachable(found, alloc))) && (rc == 0 || rc == UNREACHABLE)
      ensures rc == 0 ==> engine.port == [] && (engine.table.Abs(), r.Value()) == Step(old(Reached()), old(r.Value()))
      ensures rc != 0 ==> engine.port == old(engine.port) && engine.table.Abs() == old(engine.table.Abs())
      ensures rc != 0 ==> r.Value() == old(r.Value()) && replies.slots[..] == old(replies.slots[..])
    {
      if !found {
        return UNREACHABLE;
      }
      EnsureExact(replies.slots[..], me, alloc);
      var reply := replies.EnsureReplyPort(me, alloc);
      if reply.None? {
        return UNREACHABLE;
      }
      PutAndWait(r);
      return 0;
    }

    /** PutMsg and WaitPort: by the time the reply is there, the engine has emptied its port. */
    method PutAndWait(r: NetstackReq)
      requires engine.Valid() && r !in engine.port
      modifies engine, engine.table.entries, engine.port, r
      ensures engine.Valid() && engine.port == []
      ensures (engine.table.Abs(), r.Value()) ==
              Step(old(Runs.Exec(engine.table.Abs(), engine.Pending())), old(r.Value()))
    {
      ghost var t, qs, q := engine.table.Abs(), engine.Pending(), r.Value();
      engine.port := engine.port + [r];
      ghost var ps := engine.port;
      assert ps[|qs|] == r && engine.Pending() == qs + [q];
      engine.Drain();
      assert ps[|qs|].Value() == Runs.Replies(t, qs + [q])[|qs|];
      LastServed(t, qs, q);
    }

    /** netstack_send. The buffer is read only when there is a legal, positive number of bytes. */
    method Send(sock: int, buf: array?<byte>, len: int, found: bool, alloc: Option<PortId>) returns (rv: int)
      requires Valid() && (0 < len <= MAX_PAYLOAD ==> buf != null && len <= buf.Length)
      modifies engine, engine.table.entries, engine.port, replies.slots
      ensures Valid()
      ensures !(0 <= len <= MAX_PAYLOAD) ==> rv == EMSGSIZE && engine.table.Abs() == old(engine.table.Abs())
      ensures 0 <= len <= MAX_PAYLOAD && !old(Reachable(found, alloc)) ==>
                rv == UNREACHABLE && engine.table.Abs() == old(engine.table.Abs())
      ensures 0 <= len <= MAX_PAYLOAD && old(Reachable(found, alloc)) ==>
                SendOutcome(old(Reached()), sock, old(if len > 0 then buf[..len] else []), engine.table.Abs(), rv)
    {
      if len < 0 || len > MAX_PAYLOAD {
        return EMSGSIZE;
      }
      var data: Payload := seq(MAX_PAYLOAD, _ => 0);
      if len > 0 {
        data := CopyIn(buf, len);
      }
      var r := new NetstackReq(Body.Send(sock, len, 0, data));
      SendAnswered(Reached(), r.Value(), if len > 0 then buf[..len] else []);
      var rc := IpcCall(r, found, alloc);
      if rc != 0 {
        return UNREACHABLE;
      }
      if r.err != OK {
        return r.err;
      }
      return r.body.sent;
    }

    /** The round trip of a recv: the payload's first `rv` bytes, if `rv` is positive, were taken. */
    method Fetch(sock: int, want: nat, ghost max: nat, found: bool, alloc: Option<PortId>)
      returns (rv: int, data: Payload)
      requires Valid() && want == Min(max, MAX_PAYLOAD)
      modifies engine, engine.table.entries, engine.port, replies.slots
      ensures Valid() && rv <= want
      ensures !old(Reachable(found, alloc)) ==> rv == UNREACHABLE && engine.table.Abs() == old(engine.table.Abs())
      ensures old(Reachable(found, alloc)) ==>
                RecvOutcome(old(Reached()), sock, max, engine.table.Abs(), rv, data[..Max0(rv)])
    {
      var r := new NetstackReq(Body.Recv(sock, want, 0, seq(MAX_PAYLOAD, _ => 0)));
      RecvAnswered(Reached(), r.Value(), max);
      data := r.body.buf;
      var rc := IpcCall(r, found, alloc);
      if rc != 0 {
        return UNREACHABLE, data;
      }
      if r.err != OK {
        return r.err, data;
      }
      return r.body.got, r.body.buf;
    }

    /** netstack_recv. The bytes taken go to the front of the buffer, if there is one; `got` names
        them. */
    method Recv(sock: int, buf: array?<byte>, max: int, found: bool, alloc: Option<PortId>)
      returns (rv: int, ghost got: seq<byte>)
      requires Valid() && (buf != null ==> Min(max, MAX_PAYLOAD) <= buf.Length)
      modifies engine, engine.table.entries, engine.port, replies.slots, buf
      ensures Valid() && (buf != null ==> |got| <= buf.Length && buf[..] == got + old(buf[..])[|got|..])
      ensures max < 0 ==> rv == EMSGSIZE && got == [] && engine.table.Abs() == old(engine.table.Abs())
      ensures max >= 0 && !old(Reachable(found, alloc)) ==>
                rv == UNREACHABLE && got == [] && engine.table.Abs() == old(engine.table.Abs())
      ensures max >= 0 && old(Reachable(found, alloc)) ==>
                RecvOutcome(old(Reached()), sock, max, engine.table.Abs(), rv, got)
    {
      got := [];
      if max < 0 {
        return EMSGSIZE, got;
      }
      var want := if max > MAX_PAYLOAD then MAX_PAYLOAD else max;
      var data;
      rv, data := Fetch(sock, want, max, found, alloc);
      got := data[..Max0(rv)];
      if rv > 0 && buf != null {
        CopyOut(buf, data, rv);
      }
    }
  }

  function Max0(x: int): nat {
    if x < 0 then 0 else x
  }

  /** Copies the first `len` bytes of `buf` into a zeroed payload. */
  method CopyIn(buf: array<byte>, len: nat) returns (data: Payload)
    requires len <= buf.Length && len <= MAX_PAYLOAD
    ensures data[..len] == buf[..len]
  {
    data := seq(MAX_PAYLOAD, _ => 0);
    for i := 0 to len
      invariant data[..i] == buf[..i]
    {
      data := data[i := buf[i]];
    }
  }

  /** Copies the first `n` payload bytes to the front of `buf`. */
  method CopyOut(buf: array<byte>, data: Payload, n: nat)
    requires n <= buf.Length && n <= MAX_PAYLOAD
    modifies buf
    ensures buf[..] == data[..n] + old(buf[..])[n..]
  {
    for i := 0 to n
      invariant forall k :: 0 <= k < i ==> buf[k] == data[k]
      invariant forall k :: i <= k < buf.Length ==> buf[k] == old(buf[k])
    {
      buf[i] := data[i];
    }
  }
}
