/** The sequential specification of the socket layer: a map from descriptors to sockets
    whose backlog and receive queue are plain sequences. */
module SocketSpec {
  import opened Ipc

  const FD_FIRST: nat := 3
  const FD_MAX: nat := 128
  const BACKLOG_MAX: nat := 4
  const RXBUF_SIZE: nat := 4096
  const NO_PEER := -1

  datatype Kind = Unbound | Listening | Connected

  datatype Sock = Sock(
    kind: Kind,
    domain: int,
    typ: int,
    proto: int,
    localPort: u16,
    backlog: seq<int>,   // clients whose connect awaits an accept, oldest first
    peer: int,           // descriptor of the other end, or negative
    peerPort: u16,
    rx: seq<byte>)       // bytes sent by the peer and not yet received

  /** The open descriptors. A closed descriptor is simply absent. */
  type Table = map<int, Sock>

  predicate InRange(fd: int) {
    FD_FIRST <= fd < FD_MAX
  }

  // ---- Searches over the table -------------------------------------------

  /** The lowest free descriptor from `i` up, or -1 when there is none. */
  function FreeFrom(t: Table, i: int): (fd: int)
    requires FD_FIRST <= i <= FD_MAX
    ensures fd == -1 ==> forall k :: i <= k < FD_MAX ==> k in t
    ensures fd != -1 ==> i <= fd < FD_MAX && fd !in t && forall k :: i <= k < fd ==> k in t
    decreases FD_MAX - i
  {
    if i == FD_MAX then -1 else if i !in t then i else FreeFrom(t, i + 1)
  }

  function AllocFd(t: Table): int {
    FreeFrom(t, FD_FIRST)
  }

  lemma FirstFree(t: Table, fd: int)
    requires InRange(fd) && fd !in t && forall k :: FD_FIRST <= k < fd ==> k in t
    ensures AllocFd(t) == fd
  {
  }

  predicate ListensOn(t: Table, fd: int, port: u16) {
    fd in t && t[fd].kind == Listening && t[fd].localPort == port
  }

  /** The lowest descriptor from `i` up that listens on `port`, or -1. */
  function ListenerFrom(t: Table, port: u16, i: int): (fd: int)
    requires FD_FIRST <= i <= FD_MAX
    ensures fd == -1 ==> forall k :: i <= k < FD_MAX ==> !ListensOn(t, k, port)
    ensures fd != -1 ==> i <= fd < FD_MAX && ListensOn(t, fd, port)
                         && forall k :: i <= k < fd ==> !ListensOn(t, k, port)
    decreases FD_MAX - i
  {
    if i == FD_MAX then -1 else if ListensOn(t, i, port) then i else ListenerFrom(t, port, i + 1)
  }

  function FindListener(t: Table, port: u16): int {
    ListenerFrom(t, port, FD_FIRST)
  }

  /** `fd` keeps `port` from being bound: it listens on it or is a connection with that local port. */
  predicate Holds(t: Table, fd: int, port: u16) {
    fd in t && t[fd].kind != Unbound && t[fd].localPort == port
  }

  predicate PortInUse(t: Table, port: u16) {
    exists fd :: FD_FIRST <= fd < FD_MAX && Holds(t, fd, port)
  }

  // ---- The eight socket operations ---------------------------------------
  // Each returns the new table and the request as the engine answers it.

  function FreshSock(kind: Kind, domain: int, typ: int, proto: int): Sock {
    Sock(kind, domain, typ, proto, 0, [], NO_PEER, 0, [])
  }

  function Fail(t: Table, q: Req, err: int): (Table, Req) {
    (t, q.(err := err))
  }

  function DoSocket(t: Table, q: Req): (Table, Req)
    requires q.body.Socket?
  {
    var fd := AllocFd(t);
    if fd < 0 then
      (t, Req(EMFILE, q.body.(fd := -1)))
    else
      (t[fd := FreshSock(Unbound, q.body.domain, q.body.typ, q.body.proto)],
       Req(OK, q.body.(fd := fd)))
  }

  /** A connection that closes cuts its peer's link; the descriptor is not looked up in any backlog. */
  function DoClose(t: Table, q: Req): (Table, Req)
    requires q.body.Close?
  {
    var fd := q.body.sock;
    if fd !in t then Fail(t, q, EBADF)
    else
      var peer := t[fd].peer;
      var cut := if t[fd].kind == Connected && peer in t then t[peer := t[peer].(peer := NO_PEER)] else t;
      (cut - {fd}, q.(err := OK))
  }

  function DoBind(t: Table, q: Req): (Table, Req)
    requires q.body.Bind?
  {
    var fd := q.body.sock;
    if fd !in t then Fail(t, q, EBADF)
    else if t[fd].kind != Unbound then Fail(t, q, EINVAL)
    else if PortInUse(t, q.body.port) then Fail(t, q, EADDRINUSE)
    else (t[fd := t[fd].(localPort := q.body.port)], q.(err := OK))
  }

  function DoListen(t: Table, q: Req): (Table, Req)
    requires q.body.Listen?
  {
    var fd := q.body.sock;
    if fd !in t then Fail(t, q, EBADF)
    else if t[fd].kind != Unbound || t[fd].localPort == 0 then Fail(t, q, EINVAL)
    else (t[fd := t[fd].(kind := Listening, backlog := [])], q.(err := OK))
  }

  function DoConnect(t: Table, q: Req): (Table, Req)
    requires q.body.Connect?
  {
    var fd := q.body.sock;
    if fd !in t then Fail(t, q, EBADF)
    else if t[fd].kind != Unbound then Fail(t, q, EINVAL)
    else
      var l := FindListener(t, q.body.port);
      if l < 0 then Fail(t, q, ECONNREFUSED)
      else if |t[l].backlog| >= BACKLOG_MAX then Fail(t, q, EAGAIN)
      else
        var client := t[fd].(kind := Connected, peer := NO_PEER, peerPort := q.body.port);
        (t[fd := client][l := t[l].(backlog := t[l].backlog + [fd])], q.(err := OK))
  }

  /** Opens `newFd` as the server end of a connection accepted on `fd` and links it with `client`,
      if that descriptor is open. */
  function PairUp(t: Table, fd: int, client: int, newFd: int): Table
    requires fd in t
  {
    var lst := t[fd];
    var server := FreshSock(Connected, lst.domain, lst.typ, lst.proto).(localPort := lst.localPort, peer := client);
    var minted := t[newFd := server];
    if client in minted then minted[client := minted[client].(peer := newFd)] else minted
  }

  /** Pairs the oldest client waiting at `fd` with a newly opened server end, whose descriptor it
      returns; with no descriptor free, returns -1 and the table as it was. */
  function AcceptOldest(t: Table, fd: int): (Table, int)
    requires fd in t && t[fd].backlog != []
  {
    var lst := t[fd];
    var newFd := AllocFd(t);
    if newFd < 0 then (t, -1)
    else (PairUp(t[fd := lst.(backlog := lst.backlog[1..])], fd, lst.backlog[0], newFd), newFd)
  }

  function DoAccept(t: Table, q: Req): (Table, Req)
    requires q.body.Accept?
  {
    var fd := q.body.sock;
    if fd !in t then Fail(t, q, EBADF)
    else if t[fd].kind != Listening then Fail(t, q, EINVAL)
    else if t[fd].backlog == [] then (t, Req(EAGAIN, q.body.(newSock := -1)))
    else
      var (u, newFd) := AcceptOldest(t, fd);
      if newFd < 0 then (t, Req(EMFILE, q.body.(newSock := -1)))
      else (u, Req(OK, q.body.(newSock := newFd, peerPort := t[fd].localPort)))
  }

  function DoSend(t: Table, q: Req): (Table, Req)
    requires q.body.Send?
  {
    var fd := q.body.sock;
    if fd !in t then Fail(t, q, EBADF)
    else if t[fd].kind != Connected || t[fd].peer !in t then Fail(t, q, ENOTCONN)
    else if !(0 <= q.body.len <= MAX_PAYLOAD) then Fail(t, q, EMSGSIZE)
    else
      var peer := t[fd].peer;
      var room := RXBUF_SIZE - |t[peer].rx|;
      if room <= 0 then (t, Req(EAGAIN, q.body.(sent := 0)))
      else
        var n := Min(q.body.len, room);
        (t[peer := t[peer].(rx := t[peer].rx + q.body.data[..n])], Req(OK, q.body.(sent := n)))
  }

  /** How many of `avail` waiting bytes a receive of `want` bytes takes. */
  function Take(want: int, avail: nat): nat {
    Min(avail, if want < 0 then 0 else Min(want, MAX_PAYLOAD))
  }

  function DoRecv(t: Table, q: Req): (Table, Req)
    requires q.body.Recv?
  {
    var fd := q.body.sock;
    if fd !in t then Fail(t, q, EBADF)
    else if t[fd].kind != Connected then Fail(t, q, ENOTCONN)
    else if t[fd].rx == [] then
      (t, Req(if t[fd].peer in t then EAGAIN else OK, q.body.(got := 0)))
    else
      var n := Take(q.body.want, |t[fd].rx|);
      (t[fd := t[fd].(rx := t[fd].rx[n..])],
       Req(OK, q.body.(got := n, buf := t[fd].rx[..n] + q.body.buf[n..])))
  }

  /** One request against the table. Ping, shutdown and unknown opcodes leave it alone. */
  function Step(t: Table, q: Req): (Table, Req) {
    match q.body
    case Ping(_, payload) => (t, Req(OK, q.body.(payload := (payload + 1) % 0x1_0000_0000)))
    case Shutdown => (t, q.(err := OK))
    case Socket(_, _, _, _) => DoSocket(t, q)
    case Close(_) => DoClose(t, q)
    case Bind(_, _) => DoBind(t, q)
    case Listen(_, _) => DoListen(t, q)
    case Connect(_, _) => DoConnect(t, q)
    case Accept(_, _, _) => DoAccept(t, q)
    case Send(_, _, _, _) => DoSend(t, q)
    case Recv(_, _, _, _) => DoRecv(t, q)
    case Unknown(_) => Fail(t, q, ENOSYS)
  }

  /** What every table, tame run or not, satisfies: descriptors in range, bounded queues,
      peers either absent or in range, and waiting clients in range. */
  predicate WellFormed(t: Table) {
    forall fd :: fd in t ==> InRange(fd) && WellFormedSock(t[fd])
  }

  predicate WellFormedSock(s: Sock) {
    && |s.backlog| <= BACKLOG_MAX
    && |s.rx| <= RXBUF_SIZE
    && (s.peer == NO_PEER || InRange(s.peer))
    && forall c :: c in s.backlog ==> InRange(c)
  }

  lemma CloseWellFormed(t: Table, q: Req)
    requires WellFormed(t) && q.body.Close?
    ensures WellFormed(DoClose(t, q).0)
  {
  }

  lemma ConnectWellFormed(t: Table, q: Req)
    requires WellFormed(t) && q.body.Connect?
    ensures WellFormed(DoConnect(t, q).0)
  {
  }

  lemma AcceptWellFormed(t: Table, q: Req)
    requires WellFormed(t) && q.body.Accept?
    ensures WellFormed(DoAccept(t, q).0)
  {
  }

  lemma TransferWellFormed(t: Table, q: Req)
    requires WellFormed(t)
    ensures q.body.Send? ==> WellFormed(DoSend(t, q).0)
    ensures q.body.Recv? ==> WellFormed(DoRecv(t, q).0)
  {
  }

  /** Every request keeps the table well formed. */
  lemma StepWellFormed(t: Table, q: Req)
    requires WellFormed(t)
    ensures WellFormed(Step(t, q).0)
  {
    match q.body
    case Close(_) => CloseWellFormed(t, q);
    case Connect(_, _) => ConnectWellFormed(t, q);
    case Accept(_, _, _) => AcceptWellFormed(t, q);
    case Send(_, _, _, _) => TransferWellFormed(t, q);
    case Recv(_, _, _, _) => TransferWellFormed(t, q);
    case _ =>
  }

  /** A request answered with an error changes nothing. */
  lemma ErrorChangesNothing(t: Table, q: Req)
    ensures Step(t, q).1.err != OK ==> Step(t, q).0 == t
    ensures Step(t, q).1.err <= OK
  {
  }
}
