/** The engine side of the message protocol: the opcode switch and the loop that drains the
    request port, over the descriptor table kept in place. */
module EngineLoop {
  import opened Ipc
  import opened SocketSpec
  import opened DescriptorTable
  import opened Runs

  class Engine {
    const table: FdTable
    var port: seq<NetstackReq>      // the request port, oldest message first
    var replied: seq<NetstackReq>   // messages returned with ReplyMsg, in that order
    var shutdown: bool

    constructor ()
      ensures Valid() && table.Abs() == map[] && port == [] && replied == [] && !shutdown
      ensures fresh(table.entries)
    {
      table := new FdTable();
      port, replied, shutdown := [], [], false;
    }

    /** A message is in at most one place of the port. */
    ghost predicate Valid()
      reads this, table.entries
    {
      table.Valid() && forall i, j :: 0 <= i < j < |port| ==> port[i] != port[j]
    }

    /** The requests waiting in the port. */
    ghost function Pending(): seq<Req>
      reads this, port
    {
      seq(|port|, i requires 0 <= i < |port| reads this, port => port[i].Value())
    }

    method DispatchRequest(r: NetstackReq)
      requires table.Valid()
      modifies `shutdown, table.entries, r
      ensures table.Valid() && (table.Abs(), r.Value()) == Step(old(table.Abs()), old(r.Value()))
      ensures shutdown == (old(shutdown) || old(r.body).Shutdown?)
    {
      match r.body
      case Ping(_, payload) =>
        r.body := r.body.(payload := (payload + 1) % 0x1_0000_0000);
        r.err := OK;
      case Shutdown =>
        r.err := OK;
        shutdown := true;
      case Socket(_, _, _, _) => table.DispatchSocket(r);
      case Close(_) => table.DispatchClose(r);
      case Bind(_, _) => table.DispatchBind(r);
      case Listen(_, _) => table.DispatchListen(r);
      case Connect(_, _) => table.DispatchConnect(r);
      case Accept(_, _, _) => table.DispatchAccept(r);
      case Send(_, _, _, _) => table.DispatchSend(r);
      case Recv(_, _, _, _) => table.DispatchRecv(r);
      case Unknown(_) => r.err := ENOSYS;
    }

    /** One turn of the drain loop: GetMsg, dispatch, ReplyMsg. */
    method ServeNext()
      requires table.Valid() && port != []
      modifies this, table.entries, port[0]
      ensures table.Valid() && port == old(port)[1..] && replied == old(replied) + [old(port)[0]]
      ensures replied + port == old(replied + port)
      ensures (table.Abs(), old(port)[0].Value()) == Step(old(table.Abs()), old(port[0].Value()))
      ensures shutdown == (old(shutdown) || old(port[0].body).Shutdown?)
    {
      var r := port[0];
      port := port[1..];
      DispatchRequest(r);
      replied := replied + [r];
    }

    /** The first `i` of the messages `ps`, which asked `qs`, have been answered as a run from `t0`. */
    ghost predicate Served(t0: Table, ps: seq<NetstackReq>, qs: seq<Req>, i: nat)
      reads this, table.entries, ps
    {
      && |qs| == |ps| && i <= |ps| && port == ps[i..] && table.Valid() && table.Abs() == Exec(t0, qs[..i])
      && (forall k :: 0 <= k < i ==> ps[k].Value() == Replies(t0, qs)[k])
      && (forall k :: i <= k < |ps| ==> ps[k].Value() == qs[k])
    }

    method ServeOne(ghost t0: Table, ghost ps: seq<NetstackReq>, ghost qs: seq<Req>, ghost i: nat)
      requires Served(t0, ps, qs, i) && port != [] && forall j, k :: 0 <= j < k < |ps| ==> ps[j] != ps[k]
      modifies this, table.entries, port[0]
      ensures Served(t0, ps, qs, i + 1) && replied + port == old(replied + port)
      ensures shutdown == (old(shutdown) || qs[i].body.Shutdown?)
    {
      ExecOne(t0, qs, i);
      ReplyAt(t0, qs, i);
      ServeNext();
    }

    /** Serves every message in the port. Each is answered in place as in a sequential run of the
        specification in port order, and returned exactly once, in that order. */
    method Drain()
      requires Valid()
      modifies this, table.entries, port
      ensures Valid() && port == [] && replied == old(replied) + old(port)
      ensures table.Abs() == Exec(old(table.Abs()), old(Pending()))
      ensures forall i :: 0 <= i < |old(port)| ==>
                old(port)[i].Value() == Replies(old(table.Abs()), old(Pending()))[i]
      ensures shutdown == (old(shutdown) || AsksShutdown(old(Pending())))
    {
      ghost var t0, ps, qs := table.Abs(), port, Pending();
      ghost var i := 0;
      while port != []
        invariant Served(t0, ps, qs, i) && replied + port == old(replied) + ps
        invariant shutdown == (old(shutdown) || AsksShutdown(qs[..i]))
        decreases |port|
      {
        AsksOne(qs, i);
        ServeOne(t0, ps, qs, i);
        i := i + 1;
      }
      assert qs[..i] == qs;
    }
  }

  /** One of the requests is OP_SHUTDOWN. */
  predicate AsksShutdown(qs: seq<Req>) {
    qs != [] && (AsksShutdown(qs[..|qs| - 1]) || qs[|qs| - 1].body.Shutdown?)
  }

  lemma AsksOne(qs: seq<Req>, i: nat)
    requires i < |qs|
    ensures AsksShutdown(qs[..i + 1]) == (AsksShutdown(qs[..i]) || qs[i].body.Shutdown?)
  {
    assert qs[..i + 1][..i] == qs[..i];
  }
}
