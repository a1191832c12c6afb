/** What each request does, said without reference to how the specification computes it: which answer is
    given exactly when, and how the table changes. Sizes are written out: descriptors 3 to 127, four waiting
    clients, receive queues of 4096 bytes, payloads of 1024. */
module Outcomes {
  import opened Ipc
  import opened SocketSpec

  /** Sockets outside `touched` are as they were. */
  ghost predicate SameElsewhere(t: Table, u: Table, touched: set<int>) {
    forall k :: k !in touched ==> (k in u <==> k in t) && (k in t ==> u[k] == t[k])
  }

  /** `l` is the lowest descriptor that listens on the port. */
  ghost predicate LowestListener(t: Table, port: u16, l: int) {
    ListensOn(t, l, port) && forall k :: ListensOn(t, k, port) ==> l <= k
  }

  /** A descriptor that cannot be given out: reserved, or open. */
  predicate Occupied(t: Table, k: int) {
    k < 3 || k in t
  }

  lemma ListenerExact(t: Table, port: u16)
    requires WellFormed(t)
    ensures FindListener(t, port) == -1 <==> forall k :: !ListensOn(t, k, port)
    ensures FindListener(t, port) != -1 ==> LowestListener(t, port, FindListener(t, port))
  {
    forall k
      ensures ListensOn(t, k, port) ==> 3 <= k < 128
    {
    }
  }

  // ---- Opening and closing -----------------------------------------------

  /** A socket request opens the lowest descriptor that is not occupied, or answers EMFILE when all are. */
  lemma SocketExact(t: Table, q: Req)
    requires WellFormed(t) && q.body.Socket?
    ensures var (u, r) := Step(t, q);
            && r.body.Socket?
            && (r.err == OK || r.err == EMFILE)
            && (r.err == EMFILE <==> forall k :: k < 128 ==> Occupied(t, k))
            && (r.err == EMFILE ==> u == t && r.body == q.body.(fd := -1))
            && (r.err == OK ==> (
                  && r.body == q.body.(fd := r.body.fd) && r.body.fd < 128 && !Occupied(t, r.body.fd)
                  && (forall k :: k < r.body.fd ==> Occupied(t, k))
                  && SameElsewhere(t, u, {r.body.fd}) && r.body.fd in u
                  && u[r.body.fd] == Sock(Unbound, q.body.domain, q.body.typ, q.body.proto, 0, [], NO_PEER, 0, [])))
  {
    if AllocFd(t) >= 0 {
      assert !Occupied(t, AllocFd(t));
    }
  }

  /** A close answers EBADF exactly for descriptors that are not open; otherwise the descriptor goes, and
      of the others only the peer of a connection changes, which loses its link. */
  lemma CloseExact(t: Table, q: Req)
    requires q.body.Close?
    ensures var (u, r) := Step(t, q);
            var fd := q.body.sock;
            && r == q.(err := r.err) && (r.err == OK || r.err == EBADF) && (r.err == EBADF <==> fd !in t)
            && (r.err == EBADF ==> u == t)
            && (r.err == OK ==> (
                  && fd !in u && SameElsewhere(t, u, {fd, t[fd].peer})
                  && (t[fd].peer in t && t[fd].peer != fd ==> (
                        var p, cut := t[fd].peer, t[fd].kind == Connected;
                        p in u && u[p] == t[p].(peer := if cut then NO_PEER else t[p].peer)))))
  {
  }

  // ---- Ports -------------------------------------------------------------

  /** A bind is refused for a descriptor that is not open, one that is not unbound, and a port that a
      listener or a connection has as its local port, in this order; otherwise only the local port of the
      socket changes. */
  lemma BindExact(t: Table, q: Req)
    requires WellFormed(t) && q.body.Bind?
    ensures var (u, r) := Step(t, q);
            var fd, port := q.body.sock, q.body.port;
            var taken := exists k :: k in t && t[k].kind in {Listening, Connected} && t[k].localPort == port;
            && r == q.(err := r.err)
            && (r.err == EBADF <==> fd !in t)
            && (r.err == EINVAL <==> fd in t && t[fd].kind != Unbound)
            && (r.err == EADDRINUSE <==> fd in t && t[fd].kind == Unbound && taken)
            && (r.err == OK <==> fd in t && t[fd].kind == Unbound && !taken)
            && (r.err != OK ==> u == t)
            && (r.err == OK ==> fd in u && SameElsewhere(t, u, {fd}) && u[fd] == t[fd].(localPort := port))
  {
    var port := q.body.port;
    if k :| k in t && t[k].kind in {Listening, Connected} && t[k].localPort == port {
      assert Holds(t, k, port);
    }
  }

  /** A listen is refused for a descriptor that is not open and for a socket that is not unbound or has no
      port; otherwise the socket becomes a listener with nobody waiting. */
  lemma ListenExact(t: Table, q: Req)
    requires q.body.Listen?
    ensures var (u, r) := Step(t, q);
            var fd := q.body.sock;
            && r == q.(err := r.err)
            && (r.err == EBADF <==> fd !in t)
            && (r.err == EINVAL <==> fd in t && !(t[fd].kind == Unbound && t[fd].localPort != 0))
            && (r.err == OK <==> fd in t && t[fd].kind == Unbound && t[fd].localPort != 0)
            && (r.err != OK ==> u == t)
            && (r.err == OK ==>
                  fd in u && SameElsewhere(t, u, {fd}) && u[fd] == t[fd].(kind := Listening, backlog := []))
  {
  }

  // ---- Connections -------------------------------------------------------

  /** A connect of an unbound socket is refused when nobody listens on the port and put off when four
      clients wait at the lowest listener; otherwise the socket becomes a connection without a peer, and
      waits last there. */
  lemma ConnectExact(t: Table, q: Req)
    requires WellFormed(t) && q.body.Connect?
    ensures var (u, r) := Step(t, q);
            var fd, port := q.body.sock, q.body.port;
            && r == q.(err := r.err)
            && (r.err == EBADF <==> fd !in t)
            && (r.err == EINVAL <==> fd in t && t[fd].kind != Unbound)
            && (fd in t && t[fd].kind == Unbound ==> (
                  && (r.err == ECONNREFUSED <==> forall k :: !ListensOn(t, k, port))
                  && (r.err == EAGAIN <==> exists l :: LowestListener(t, port, l) && |t[l].backlog| == 4)
                  && (r.err == OK <==> exists l :: LowestListener(t, port, l) && |t[l].backlog| < 4)))
            && (r.err != OK ==> u == t)
            && (r.err == OK ==> forall l :: LowestListener(t, port, l) ==> (
                  && fd != l && fd in u && l in u && SameElsewhere(t, u, {fd, l})
                  && u[fd] == t[fd].(kind := Connected, peer := NO_PEER, peerPort := port)
                  && u[l] == t[l].(backlog := t[l].backlog + [fd])))
  {
    var port := q.body.port;
    ListenerExact(t, port);
    forall l | LowestListener(t, port, l)
      ensures l == FindListener(t, port)
    {
      assert ListensOn(t, FindListener(t, port), port);
    }
    if FindListener(t, port) != -1 {
      assert LowestListener(t, port, FindListener(t, port));
    }
  }

  /** An accept is refused for a descriptor that is not open or not a listener, put off when nobody waits,
      and fails when no descriptor is left. */
  lemma AcceptExact(t: Table, q: Req)
    requires WellFormed(t) && q.body.Accept?
    ensures var (u, r) := Step(t, q);
            var fd := q.body.sock;
            && r.body.Accept?
            && (r.err == EBADF <==> fd !in t)
            && (r.err == EINVAL <==> fd in t && t[fd].kind != Listening)
            && (fd in t && t[fd].kind == Listening ==> (
                  && (r.err == EAGAIN <==> t[fd].backlog == [])
                  && (r.err == EMFILE <==> t[fd].backlog != [] && forall k :: k < 128 ==> Occupied(t, k))
                  && (r.err == OK <==> t[fd].backlog != [] && exists k :: k < 128 && !Occupied(t, k))))
            && (r.err != OK ==> u == t)
            && (r.err == EBADF || r.err == EINVAL ==> r.body == q.body)
            && (r.err == EAGAIN || r.err == EMFILE ==> r.body == q.body.(newSock := -1))
            && (r.err == OK ==> (
                  && r.body == q.body.(newSock := r.body.newSock, peerPort := t[fd].localPort)
                  && r.body.newSock < 128 && !Occupied(t, r.body.newSock)
                  && forall k :: k < r.body.newSock ==> Occupied(t, k)))
  {
    var n := AllocFd(t);
    if q.body.sock in t && n >= 0 {
      assert n < 128 && !Occupied(t, n);
    }
  }

  /** The table after an accept: the oldest client has left the queue; the new descriptor is a connection
      with the listener's attributes and that client as its peer; and the client, if it is open, has the
      new descriptor as its peer. */
  lemma AcceptTable(t: Table, q: Req)
    requires WellFormed(t) && q.body.Accept? && Step(t, q).1.err == OK
    ensures var (u, r) := Step(t, q);
            && q.body.sock in t && t[q.body.sock].backlog != [] && r.body.Accept?
            && (var l, a, b := q.body.sock, t[q.body.sock].backlog[0], r.body.newSock;
                && l in u && b in u && SameElsewhere(t, u, {l, a, b})
                && u[l].backlog == t[l].backlog[1..] && (a != l ==> u[l] == t[l].(backlog := t[l].backlog[1..]))
                && (a != b ==> u[b] == Sock(Connected, t[l].domain, t[l].typ, t[l].proto, t[l].localPort, [], a, 0, []))
                && (a in t ==> a in u && u[a].peer == b) && (a in t && a != l ==> u[a] == t[a].(peer := b)))
  {
  }

  // ---- Bytes -------------------------------------------------------------

  /** When a send is refused, and what it moves otherwise. */
  lemma SendExact(t: Table, q: Req)
    requires WellFormed(t) && q.body.Send?
    ensures var (u, r) := Step(t, q);
            var fd, len := q.body.sock, q.body.len;
            var linked := fd in t && t[fd].kind == Connected && t[fd].peer in t;
            && r.body.Send?
            && (r.err == EBADF <==> fd !in t)
            && (r.err == ENOTCONN <==> fd in t && !linked)
            && (r.err == EMSGSIZE <==> linked && (len < 0 || len > 1024))
            && (r.err == EAGAIN <==> linked && 0 <= len <= 1024 && |t[t[fd].peer].rx| == 4096)
            && (r.err == OK <==> linked && 0 <= len <= 1024 && |t[t[fd].peer].rx| < 4096)
            && (r.err != OK ==> u == t)
            && (r.err == EAGAIN ==> r.body == q.body.(sent := 0))
            && (r.err != OK && r.err != EAGAIN ==> r.body == q.body)
            && (r.err == OK ==> (
                  var p, n := t[fd].peer, r.body.sent;
                  && r.body == q.body.(sent := n) && 0 <= n <= len && p in u && SameElsewhere(t, u, {p})
                  && (n < len ==> |t[p].rx| + n == 4096) && |u[p].rx| <= 4096
                  && u[p] == t[p].(rx := t[p].rx + q.body.data[..n])))
  {
  }

  /** When a recv is refused, and what it delivers otherwise, for every length asked for. */
  lemma RecvExact(t: Table, q: Req)
    requires q.body.Recv?
    ensures var (u, r) := Step(t, q);
            var fd, want := q.body.sock, q.body.want;
            && r.body.Recv?
            && (r.err == EBADF <==> fd !in t)
            && (r.err == ENOTCONN <==> fd in t && t[fd].kind != Connected)
            && (r.err == EAGAIN <==> fd in t && t[fd].kind == Connected && t[fd].rx == [] && t[fd].peer in t)
            && (r.err == OK <==> fd in t && t[fd].kind == Connected && (t[fd].rx != [] || t[fd].peer !in t))
            && (r.err != OK ==> u == t)
            && (r.err == EAGAIN ==> r.body == q.body.(got := 0))
            && (r.err == EBADF || r.err == ENOTCONN ==> r.body == q.body)
            && (r.err == OK ==> (
                  var n := r.body.got;
                  && r.body == q.body.(got := n, buf := r.body.buf) && 0 <= n <= |t[fd].rx| && n <= 1024
                  && (n < |t[fd].rx| && n < 1024 ==> n == if want < 0 then 0 else want)
                  && (n > 0 ==> n <= want)
                  && fd in u && SameElsewhere(t, u, {fd}) && u[fd] == t[fd].(rx := t[fd].rx[n..])
                  && r.body.buf[..n] == t[fd].rx[..n] && r.body.buf[n..] == q.body.buf[n..]))
  {
    var r := DoRecv(t, q).1;
    var fd := q.body.sock;
    if fd in t && t[fd].kind == Connected && t[fd].rx != [] {
      var n := r.body.got;
      assert r.body.buf == t[fd].rx[..n] + q.body.buf[n..];
      assert r.body.buf[..n] == t[fd].rx[..n] && r.body.buf[n..] == q.body.buf[n..];
    }
  }

  // ---- The rest ----------------------------------------------------------

  /** Ping echoes its number and answers the payload plus one, modulo 2^32; shutdown is acknowledged; any
      other opcode is unknown; none of them touches the table. */
  lemma OthersExact(t: Table, q: Req)
    requires q.body.Ping? || q.body.Shutdown? || q.body.Unknown?
    ensures var (u, r) := Step(t, q);
            && u == t
            && (q.body.Ping? ==> (
                  && r.err == OK && r.body.Ping? && r.body.seqNo == q.body.seqNo
                  && (r.body.payload == q.body.payload + 1 || (q.body.payload == 0xFFFF_FFFF && r.body.payload == 0))))
            && (q.body.Shutdown? ==> r == Req(OK, q.body))
            && (q.body.Unknown? ==> r == Req(ENOSYS, q.body))
  {
  }
}
