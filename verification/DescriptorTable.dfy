/** The engine's descriptor table as the code keeps it: 128 zero-initialised slots with ring
    indices and linear receive buffers, updated in place. Every dispatcher is proved to do
    exactly what the sequential specification does to the table it represents. */
module DescriptorTable {
  import opened Ipc
  import opened SocketSpec

  datatype FdKind = FdFree | FdUnbound | FdListen | FdConnected

  /** The backlog of a listener: a ring of BACKLOG_MAX descriptors. */
  datatype Ring = Ring(slots: seq<int>, head: int, tail: int, count: int)

  /** The receive buffer: RXBUF_SIZE bytes of which `head..tail` are live. */
  datatype RxBuf = RxBuf(bytes: seq<byte>, head: int, tail: int)

  /** One slot of the table. */
  datatype Entry = Entry(
    kind: FdKind,
    domain: int,
    typ: int,
    proto: int,
    localPort: u16,
    backlog: Ring,
    peerFd: int,
    peerPort: u16,
    rx: RxBuf)

  const ZERO_RING := Ring(seq(BACKLOG_MAX, _ => 0), 0, 0, 0)
  const ZERO_RX := RxBuf(seq(RXBUF_SIZE, _ => 0), 0, 0)
  const ZEROED := Entry(FdFree, 0, 0, 0, 0, ZERO_RING, 0, 0, ZERO_RX)

  // ---- Backlog ring ------------------------------------------------------

  predicate RingShape(r: Ring) {
    && |r.slots| == BACKLOG_MAX
    && 0 <= r.head < BACKLOG_MAX
    && 0 <= r.count <= BACKLOG_MAX
    && r.tail == (r.head + r.count) % BACKLOG_MAX
  }

  /** The clients waiting in the ring, oldest first. */
  function Waiting(r: Ring): (w: seq<int>)
    requires RingShape(r)
  {
    seq(r.count, k requires 0 <= k < r.count => r.slots[(r.head + k) % BACKLOG_MAX])
  }

  predicate RingValid(r: Ring) {
    RingShape(r) && forall c :: c in Waiting(r) ==> InRange(c)
  }

  function Push(r: Ring, fd: int): Ring
    requires RingShape(r) && r.count < BACKLOG_MAX
  {
    Ring(r.slots[r.tail := fd], r.head, (r.tail + 1) % BACKLOG_MAX, r.count + 1)
  }

  function Pop(r: Ring): Ring
    requires RingShape(r) && r.count > 0
  {
    r.(head := (r.head + 1) % BACKLOG_MAX, count := r.count - 1)
  }

  /** Puts a client back in front of the queue. */
  function Unpop(r: Ring, fd: int): Ring
    requires RingShape(r) && r.count < BACKLOG_MAX
  {
    var h := (r.head + BACKLOG_MAX - 1) % BACKLOG_MAX;
    r.(head := h, slots := r.slots[h := fd], count := r.count + 1)
  }

  lemma PushAppends(r: Ring, fd: int)
    requires RingValid(r) && r.count < BACKLOG_MAX && InRange(fd)
    ensures RingValid(Push(r, fd)) && Waiting(Push(r, fd)) == Waiting(r) + [fd]
  {
    assert Waiting(Push(r, fd)) == Waiting(r) + [fd];
  }

  lemma PopDropsOldest(r: Ring)
    requires RingValid(r) && r.count > 0
    ensures RingValid(Pop(r)) && Waiting(Pop(r)) == Waiting(r)[1..]
    ensures Waiting(r)[0] == r.slots[r.head] && InRange(r.slots[r.head])
  {
    var w, w' := Waiting(r), Waiting(Pop(r));
    forall k | 0 <= k < |w'|
      ensures w'[k] == w[k + 1]
    {
      assert ((r.head + 1) % BACKLOG_MAX + k) % BACKLOG_MAX == (r.head + (k + 1)) % BACKLOG_MAX;
    }
    assert w' == w[1..];
    assert w[0] in w;
  }

  /** Undoing a pop restores the ring exactly, indices included. */
  lemma UnpopRestores(r: Ring)
    requires RingShape(r) && r.count > 0
    ensures Unpop(Pop(r), r.slots[r.head]) == r
  {
  }

  // ---- Receive buffer ----------------------------------------------------

  predicate RxValid(b: RxBuf) {
    |b.bytes| == RXBUF_SIZE && 0 <= b.head <= b.tail <= RXBUF_SIZE
  }

  function Live(b: RxBuf): seq<byte>
    requires RxValid(b)
  {
    b.bytes[b.head..b.tail]
  }

  lemma FrontOfLive(b: RxBuf, n: int)
    requires RxValid(b) && 0 <= n <= b.tail - b.head
    ensures b.bytes[b.head..b.head + n] == Live(b)[..n]
  {
    assert forall k :: 0 <= k < n ==> Live(b)[k] == b.bytes[b.head + k];
  }

  /** memcpy of `data` into `buf` at `at`. */
  function CopyInto(buf: seq<byte>, at: int, data: seq<byte>): (r: seq<byte>)
    requires 0 <= at <= at + |data| <= |buf|
    ensures |r| == |buf| && r[..at] == buf[..at]
    ensures r[at..at + |data|] == data && r[at + |data|..] == buf[at + |data|..]
  {
    buf[..at] + data + buf[at + |data|..]
  }

  /** Shifts the live bytes to the front, so that all consumed space becomes room. */
  function Compact(b: RxBuf): (r: RxBuf)
    requires RxValid(b)
    ensures RxValid(r) && Live(r) == Live(b) && r.head == 0 && r.tail == |Live(b)|
  {
    if b.head == 0 then b
    else
      var live := b.tail - b.head;
      RxBuf(if live > 0 then CopyInto(b.bytes, 0, b.bytes[b.head..b.tail]) else b.bytes, 0, live)
  }

  function Append(b: RxBuf, chunk: seq<byte>): (r: RxBuf)
    requires RxValid(b) && b.tail + |chunk| <= RXBUF_SIZE
    ensures RxValid(r) && Live(r) == Live(b) + chunk
  {
    var bytes := CopyInto(b.bytes, b.tail, chunk);
    assert bytes[b.head..b.tail] == bytes[..b.tail][b.head..];
    RxBuf(bytes, b.head, b.tail + |chunk|)
  }

  /** Consumes `n` live bytes; an emptied buffer starts over at the front. */
  function Consume(b: RxBuf, n: int): (r: RxBuf)
    requires RxValid(b) && 0 <= n <= b.tail - b.head
    ensures RxValid(r) && Live(r) == Live(b)[n..]
  {
    if b.head + n == b.tail then b.(head := 0, tail := 0) else b.(head := b.head + n)
  }

  // ---- Representation ----------------------------------------------------

  predicate EntryValid(e: Entry) {
    RingValid(e.backlog) && RxValid(e.rx) && (e.kind != FdFree ==> e.peerFd == NO_PEER || InRange(e.peerFd))
  }

  predicate AllValid(es: seq<Entry>) {
    |es| == FD_MAX && forall i :: 0 <= i < FD_MAX ==> EntryValid(es[i])
  }

  function AbsKind(k: FdKind): Kind {
    match k
    case FdListen => Listening
    case FdConnected => Connected
    case _ => Unbound
  }

  function AbsEntry(e: Entry): Sock
    requires EntryValid(e)
  {
    Sock(AbsKind(e.kind), e.domain, e.typ, e.proto, e.localPort, Waiting(e.backlog), e.peerFd, e.peerPort, Live(e.rx))
  }

  /** A cleared slot, given a kind, represents a socket with nothing queued. */
  lemma ClearedIsFresh(e: Entry)
    requires e.backlog == ZERO_RING && e.rx == ZERO_RX && e.peerPort == 0
    requires e.kind != FdFree ==> e.peerFd == NO_PEER || InRange(e.peerFd)
    ensures EntryValid(e)
    ensures AbsEntry(e) ==
            FreshSock(AbsKind(e.kind), e.domain, e.typ, e.proto).(localPort := e.localPort, peer := e.peerFd)
  {
  }

  /** The sockets a table of slots represents; free slots, whatever they contain, represent none. */
  function AbsTable(es: seq<Entry>): Table
    requires AllValid(es)
  {
    map fd | FD_FIRST <= fd < FD_MAX && es[fd].kind != FdFree :: AbsEntry(es[fd])
  }

  lemma AbsUpdate(es: seq<Entry>, i: int, e: Entry)
    requires AllValid(es) && InRange(i) && EntryValid(e)
    ensures AllValid(es[i := e])
    ensures AbsTable(es[i := e]) == if e.kind == FdFree then AbsTable(es) - {i} else AbsTable(es)[i := AbsEntry(e)]
  {
  }

  /** Whatever the slots hold, the table they represent is well formed. */
  lemma AbsWellFormed(es: seq<Entry>)
    requires AllValid(es)
    ensures WellFormed(AbsTable(es))
  {
  }

  // ---- The request being answered ----------------------------------------

  /** A request message in memory; the engine writes its answer into it. */
  class NetstackReq {
    var err: int
    var body: Body

    constructor (body: Body)
      ensures this.body == body && err == 0
    {
      this.body := body;
      err := 0;
    }

    ghost function Value(): Req
      reads this
    {
      Req(err, body)
    }
  }

  // ---- The table ---------------------------------------------------------

  class FdTable {
    const entries: array<Entry>

    ghost predicate Valid()
      reads entries
    {
      AllValid(entries[..])
    }

    /** The table of sockets these slots represent. */
    ghost function Abs(): Table
      requires Valid()
      reads entries
    {
      AbsTable(entries[..])
    }

    constructor ()
      ensures Valid() && Abs() == map[] && fresh(entries)
    {
      entries := new Entry[FD_MAX](_ => ZEROED);
    }

    predicate FdValid(fd: int)
      requires Valid()
      reads entries
      ensures FdValid(fd) <==> fd in Abs()
    {
      FD_FIRST <= fd < FD_MAX && entries[fd].kind != FdFree
    }

    /** Stores a slot, and with it the socket the slot represents. */
    method Store(i: int, e: Entry)
      requires Valid() && InRange(i) && EntryValid(e)
      modifies entries
      ensures Valid() && entries[..] == old(entries[..])[i := e]
      ensures Abs() == if e.kind == FdFree then old(Abs()) - {i} else old(Abs())[i := AbsEntry(e)]
    {
      AbsUpdate(entries[..], i, e);
      entries[i] := e;
      assert entries[..] == old(entries[..])[i := e];
    }

    /** Finds the lowest free slot and clears it; the slot stays free. */
    method AllocFd() returns (fd: int)
      requires Valid()
      modifies entries
      ensures Valid() && fd == SocketSpec.AllocFd(old(Abs())) && Abs() == old(Abs())
      ensures fd < 0 ==> entries[..] == old(entries[..])
      ensures fd >= 0 ==> entries[..] == old(entries[..])[fd := ZEROED.(peerFd := NO_PEER)]
    {
      for i := FD_FIRST to FD_MAX
        invariant entries[..] == old(entries[..])
        invariant SocketSpec.AllocFd(Abs()) == FreeFrom(Abs(), i)
      {
        if entries[i].kind == FdFree {
          Store(i, ZEROED.(peerFd := NO_PEER));
          return i;
        }
      }
      return -1;
    }

    method FindListener(port: u16) returns (fd: int)
      requires Valid()
      ensures fd == SocketSpec.FindListener(Abs(), port)
    {
      for i := FD_FIRST to FD_MAX
        invariant SocketSpec.FindListener(Abs(), port) == ListenerFrom(Abs(), port, i)
      {
        if entries[i].kind == FdListen && entries[i].localPort == port {
          return i;
        }
      }
      return -1;
    }

    method PortInUse(port: u16) returns (used: bool)
      requires Valid()
      ensures used == SocketSpec.PortInUse(Abs(), port)
    {
      for i := FD_FIRST to FD_MAX
        invariant forall k :: FD_FIRST <= k < i ==> !Holds(Abs(), k, port)
      {
        if (entries[i].kind == FdListen || entries[i].kind == FdConnected) && entries[i].localPort == port {
          assert Holds(Abs(), i, port);
          return true;
        }
      }
      return false;
    }

    /** Shifts the live bytes of slot `i` to the front of its buffer. */
    method RxCompact(i: int)
      requires Valid() && InRange(i)
      modifies entries
      ensures Valid() && entries[..] == old(entries[..])[i := entries[i]]
      ensures entries[i].kind == old(entries[i].kind) && AbsEntry(entries[i]) == AbsEntry(old(entries[i]))
      ensures entries[i].rx.head == 0 && Abs() == old(Abs())
    {
      assert EntryValid(entries[i]);
      Store(i, entries[i].(rx := Compact(entries[i].rx)));
    }

    // ---- Dispatchers -----------------------------------------------------

    /** Opens an unbound socket on the lowest free descriptor, if there is one. */
    method OpenUnbound(domain: int, typ: int, proto: int) returns (fd: int)
      requires Valid()
      modifies entries
      ensures Valid() && fd == SocketSpec.AllocFd(old(Abs()))
      ensures fd < 0 ==> Abs() == old(Abs())
      ensures fd >= 0 ==> Abs() == old(Abs())[fd := FreshSock(Unbound, domain, typ, proto)]
    {
      fd := AllocFd();
      if fd >= 0 {
        var e := entries[fd].(kind := FdUnbound, domain := domain, typ := typ, proto := proto);
        ClearedIsFresh(e);
        Store(fd, e);
      }
    }

    method DispatchSocket(r: NetstackReq)
      requires Valid() && r.body.Socket?
      modifies entries, r
      ensures Valid() && (Abs(), r.Value()) == DoSocket(old(Abs()), old(r.Value()))
    {
      var fd := OpenUnbound(r.body.domain, r.body.typ, r.body.proto);
      if fd < 0 {
        r.err := EMFILE;
        r.body := r.body.(fd := -1);
        return;
      }
      r.body := r.body.(fd := fd);
      r.err := OK;
    }

    method DispatchClose(r: NetstackReq)
      requires Valid() && r.body.Close?
      modifies entries, r
      ensures Valid() && (Abs(), r.Value()) == DoClose(old(Abs()), old(r.Value()))
    {
      var fd := r.body.sock;
      if !FdValid(fd) {
        r.err := EBADF;
        return;
      }
      if entries[fd].kind == FdConnected {
        var peer := entries[fd].peerFd;
        if peer >= 0 && FdValid(peer) {
          assert EntryValid(entries[peer]);
          Store(peer, entries[peer].(peerFd := NO_PEER));
        }
      }
      Store(fd, ZEROED.(peerFd := NO_PEER));
      r.err := OK;
    }

    method DispatchBind(r: NetstackReq)
      requires Valid() && r.body.Bind?
      modifies entries, r
      ensures Valid() && (Abs(), r.Value()) == DoBind(old(Abs()), old(r.Value()))
    {
      var fd := r.body.sock;
      if !FdValid(fd) {
        r.err := EBADF;
        return;
      }
      assert EntryValid(entries[fd]);
      if entries[fd].kind != FdUnbound {
        r.err := EINVAL;
        return;
      }
      var used := PortInUse(r.body.port);
      if used {
        r.err := EADDRINUSE;
        return;
      }
      Store(fd, entries[fd].(localPort := r.body.port));
      r.err := OK;
    }

    method DispatchListen(r: NetstackReq)
      requires Valid() && r.body.Listen?
      modifies entries, r
      ensures Valid() && (Abs(), r.Value()) == DoListen(old(Abs()), old(r.Value()))
    {
      var fd := r.body.sock;
      if !FdValid(fd) {
        r.err := EBADF;
        return;
      }
      assert EntryValid(entries[fd]);
      if entries[fd].kind != FdUnbound || entries[fd].localPort == 0 {
        r.err := EINVAL;
        return;
      }
      Store(fd, entries[fd].(kind := FdListen, backlog := entries[fd].backlog.(head := 0, tail := 0, count := 0)));
      r.err := OK;
    }

    method DispatchConnect(r: NetstackReq)
      requires Valid() && r.body.Connect?
      modifies entries, r
      ensures Valid() && (Abs(), r.Value()) == DoConnect(old(Abs()), old(r.Value()))
    {
      var fd := r.body.sock;
      if !FdValid(fd) {
        r.err := EBADF;
        return;
      }
      assert EntryValid(entries[fd]);
      if entries[fd].kind != FdUnbound {
        r.err := EINVAL;
        return;
      }
      var lfd := FindListener(r.body.port);
      if lfd < 0 {
        r.err := ECONNREFUSED;
        return;
      }
      var lst := entries[lfd];
      assert EntryValid(lst);
      if lst.backlog.count >= BACKLOG_MAX {
        r.err := EAGAIN;
        return;
      }
      Store(fd, entries[fd].(kind := FdConnected, peerFd := NO_PEER, peerPort := r.body.port));
      PushAppends(lst.backlog, fd);
      Store(lfd, lst.(backlog := Push(lst.backlog, fd)));
      r.err := OK;
    }

    /** Turns the cleared slot `newFd` into the server end of a connection accepted on `fd`. */
    method Pair(fd: int, clientFd: int, newFd: int)
      requires Valid() && InRange(fd) && InRange(clientFd) && InRange(newFd) && fd != newFd
      requires entries[newFd] == ZEROED.(peerFd := NO_PEER) && entries[fd].kind == FdListen
      modifies entries
      ensures Valid()
      ensures Abs() == PairUp(old(Abs()), fd, clientFd, newFd)
      ensures entries[fd].localPort == old(entries[fd].localPort)
    {
      var e := entries[newFd].(kind := FdConnected, domain := entries[fd].domain, typ := entries[fd].typ,
                               proto := entries[fd].proto, localPort := entries[fd].localPort,
                               peerFd := clientFd, peerPort := 0);
      ClearedIsFresh(e);
      Store(newFd, e);
      assert EntryValid(entries[clientFd]);
      Store(clientFd, entries[clientFd].(peerFd := newFd));
    }

    /** Takes the oldest client off the backlog of listener `fd`. */
    method PopPending(fd: int) returns (clientFd: int)
      requires Valid() && FdValid(fd) && entries[fd].backlog.count > 0
      modifies entries
      ensures Valid() && InRange(clientFd)
      ensures clientFd == old(entries[fd].backlog.slots[entries[fd].backlog.head]) == old(Abs())[fd].backlog[0]
      ensures entries[..] == old(entries[..])[fd := old(entries[fd].(backlog := Pop(entries[fd].backlog)))]
      ensures var lst := old(Abs())[fd]; Abs() == old(Abs())[fd := lst.(backlog := lst.backlog[1..])]
    {
      var lst := entries[fd];
      assert EntryValid(lst);
      PopDropsOldest(lst.backlog);
      clientFd := lst.backlog.slots[lst.backlog.head];
      Store(fd, lst.(backlog := Pop(lst.backlog)));
    }

    /** Returns a client just popped to the head of the ring; the table is again what it was. */
    method PutBack(fd: int, clientFd: int, ghost before: seq<Entry>)
      requires AllValid(before) && InRange(fd) && before[fd].backlog.count > 0
      requires entries[..] == before[fd := before[fd].(backlog := Pop(before[fd].backlog))]
      requires clientFd == before[fd].backlog.slots[before[fd].backlog.head]
      modifies entries
      ensures entries[..] == before
    {
      assert EntryValid(before[fd]);
      UnpopRestores(before[fd].backlog);
      entries[fd] := entries[fd].(backlog := Unpop(entries[fd].backlog, clientFd));
    }

    /** Serves the oldest waiting client or, with no slot left, puts it back where it was. */
    method AcceptPending(fd: int) returns (newFd: int)
      requires Valid() && FdValid(fd) && entries[fd].kind == FdListen && entries[fd].backlog.count > 0
      modifies entries
      ensures Valid() && (Abs(), newFd) == AcceptOldest(old(Abs()), fd)
      ensures newFd >= 0 ==> entries[fd].localPort == old(entries[fd].localPort)
    {
      ghost var t := Abs();
      var clientFd := PopPending(fd);
      SameKeysSameAlloc(t, Abs());
      newFd := AllocFd();
      if newFd < 0 {
        PutBack(fd, clientFd, old(entries[..]));
      } else {
        Pair(fd, clientFd, newFd);
      }
    }

    method DispatchAccept(r: NetstackReq)
      requires Valid() && r.body.Accept?
      modifies entries, r
      ensures Valid() && (Abs(), r.Value()) == DoAccept(old(Abs()), old(r.Value()))
    {
      var fd := r.body.sock;
      if !FdValid(fd) {
        r.err := EBADF;
        return;
      }
      assert EntryValid(entries[fd]);
      if entries[fd].kind != FdListen {
        r.err := EINVAL;
        return;
      }
      if entries[fd].backlog.count == 0 {
        r.err := EAGAIN;
        r.body := r.body.(newSock := -1);
        return;
      }
      var newFd := AcceptPending(fd);
      if newFd < 0 {
        r.err := EMFILE;
        r.body := r.body.(newSock := -1);
        return;
      }
      r.body := r.body.(newSock := newFd, peerPort := entries[fd].localPort);
      r.err := OK;
    }

    /** Adds bytes behind the live bytes of slot `fd`. */
    method WriteRx(fd: int, chunk: seq<byte>)
      requires Valid() && FdValid(fd) && entries[fd].rx.tail + |chunk| <= RXBUF_SIZE
      modifies entries
      ensures Valid() && Abs() == old(Abs())[fd := old(Abs()[fd].(rx := Abs()[fd].rx + chunk))]
    {
      var e := entries[fd];
      assert EntryValid(e);
      Store(fd, e.(rx := Append(e.rx, chunk)));
    }

    method DispatchSend(r: NetstackReq)
      requires Valid() && r.body.Send?
      modifies entries, r
      ensures Valid() && (Abs(), r.Value()) == DoSend(old(Abs()), old(r.Value()))
    {
      var fd := r.body.sock;
      if !FdValid(fd) {
        r.err := EBADF;
        return;
      }
      if entries[fd].kind != FdConnected || entries[fd].peerFd < 0 {
        r.err := ENOTCONN;
        return;
      }
      var peer := entries[fd].peerFd;
      if !FdValid(peer) {
        r.err := ENOTCONN;
        return;
      }
      var len := r.body.len;
      if len < 0 || len > MAX_PAYLOAD {
        r.err := EMSGSIZE;
        return;
      }
      RxCompact(peer);
      assert EntryValid(entries[peer]);
      var room := RXBUF_SIZE - entries[peer].rx.tail;
      if room <= 0 {
        r.err := EAGAIN;
        r.body := r.body.(sent := 0);
        return;
      }
      var toWrite := if len < room then len else room;
      WriteRx(peer, r.body.data[..toWrite]);
      r.body := r.body.(sent := toWrite);
      r.err := OK;
    }

    /** Takes `n` live bytes out of the buffer of slot `fd`. */
    method ReadRx(fd: int, n: int) returns (chunk: seq<byte>)
      requires Valid() && FdValid(fd) && 0 <= n <= |Abs()[fd].rx|
      modifies entries
      ensures Valid() && chunk == old(Abs()[fd].rx[..n])
      ensures Abs() == old(Abs())[fd := old(Abs()[fd].(rx := Abs()[fd].rx[n..]))]
    {
      var e := entries[fd];
      assert EntryValid(e);
      chunk := e.rx.bytes[e.rx.head..e.rx.head + n];
      FrontOfLive(e.rx, n);
      Store(fd, e.(rx := Consume(e.rx, n)));
    }

    method DispatchRecv(r: NetstackReq)
      requires Valid() && r.body.Recv?
      modifies entries, r
      ensures Valid() && (Abs(), r.Value()) == DoRecv(old(Abs()), old(r.Value()))
    {
      var fd := r.body.sock;
      if !FdValid(fd) {
        r.err := EBADF;
        return;
      }
      var e := entries[fd];
      assert EntryValid(e);
      if e.kind != FdConnected {
        r.err := ENOTCONN;
        return;
      }
      var avail := e.rx.tail - e.rx.head;
      if avail <= 0 {
        if e.peerFd < 0 || !FdValid(e.peerFd) {
          r.body := r.body.(got := 0);
          r.err := OK;
          return;
        }
        r.err := EAGAIN;
        r.body := r.body.(got := 0);
        return;
      }
      var want := r.body.want;
      if want < 0 {
        want := 0;
      }
      if want > MAX_PAYLOAD {
        want := MAX_PAYLOAD;
      }
      var toRead := if avail < want then avail else want;
      var chunk := ReadRx(fd, toRead);
      r.body := r.body.(got := toRead, buf := CopyInto(r.body.buf, 0, chunk));
      r.err := OK;
    }
  }

  /** The choice of a free descriptor depends only on which descriptors are open. */
  lemma SameKeysSameAlloc(t: Table, u: Table)
    requires t.Keys == u.Keys
    ensures AllocFd(t) == AllocFd(u)
  {
  }
}
