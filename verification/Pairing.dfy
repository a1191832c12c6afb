/** Peer links and backlogs over whole runs. */
module Pairing {
  import opened Ipc
  import opened SocketSpec
  import opened Runs

  /** `c` waits in the backlog of some listener. */
  predicate Waits(t: Table, c: int) {
    exists l :: l in t && c in t[l].backlog
  }

  /** The two descriptors are the ends of one connection. */
  predicate Linked(t: Table, a: int, b: int) {
    && a in t && b in t && a != b
    && t[a].kind == Connected && t[b].kind == Connected
    && t[a].peer == b && t[b].peer == a
  }

  predicate LinksSymmetric(t: Table) {
    forall fd :: fd in t && t[fd].peer != NO_PEER ==> Linked(t, fd, t[fd].peer)
  }

  /** Only connections hold bytes, only listeners hold clients. */
  predicate KindsRespected(t: Table) {
    forall fd :: fd in t ==>
      && (t[fd].kind != Connected ==> t[fd].rx == [])
      && (t[fd].kind != Listening ==> t[fd].backlog == [])
  }

  predicate Unclaimed(t: Table, c: int) {
    c in t && t[c].kind == Connected && t[c].peer == NO_PEER && t[c].rx == []
  }

  predicate WaitersUnclaimed(t: Table) {
    forall l, i :: l in t && 0 <= i < |t[l].backlog| ==> Unclaimed(t, t[l].backlog[i])
  }

  /** No client waits twice, neither in one backlog nor in two. */
  predicate WaitersOnce(t: Table) {
    forall l, i, m, j ::
      l in t && 0 <= i < |t[l].backlog| && m in t && 0 <= j < |t[m].backlog| && t[l].backlog[i] == t[m].backlog[j]
      ==> l == m && i == j
  }

  predicate PairInv(t: Table) {
    WellFormed(t) && LinksSymmetric(t) && KindsRespected(t) && WaitersUnclaimed(t) && WaitersOnce(t)
  }

  /** The one request a caller must avoid: closing a descriptor that still waits for an accept. */
  predicate TameReq(t: Table, q: Req) {
    q.body.Close? && q.body.sock in t ==> !Waits(t, q.body.sock)
  }

  ghost predicate Tame(t: Table, qs: seq<Req>) {
    forall i :: 0 <= i < |qs| ==> TameReq(Exec(t, qs[..i]), qs[i])
  }

  // ---- Each request keeps the invariant ----------------------------------

  /** Opening or changing a socket that is unlinked, holds no bytes and no clients. */
  lemma PlainSlot(t: Table, fd: int, s: Sock)
    requires PairInv(t) && InRange(fd) && WellFormedSock(s)
    requires fd in t ==> t[fd].kind == Unbound
    requires s.kind != Connected && s.peer == NO_PEER && s.rx == [] && s.backlog == []
    ensures PairInv(t[fd := s])
  {
  }

  lemma UnboundIsPlain(t: Table, fd: int)
    requires PairInv(t) && fd in t && t[fd].kind == Unbound
    ensures t[fd].peer == NO_PEER && t[fd].rx == [] && t[fd].backlog == []
  {
  }

  lemma PairingSetup(t: Table, q: Req)
    requires PairInv(t) && (q.body.Socket? || q.body.Bind? || q.body.Listen?)
    ensures PairInv(Step(t, q).0)
  {
    if Step(t, q).0 != t {
      if !q.body.Socket? {
        UnboundIsPlain(t, q.body.sock);
        PlainSlot(t, q.body.sock, Step(t, q).0[q.body.sock]);
      } else {
        PlainSlot(t, AllocFd(t), Step(t, q).0[AllocFd(t)]);
      }
    }
  }

  /** What a successful connect of `fd` to listener `l` does. */
  predicate Queued(t: Table, u: Table, fd: int, l: int) {
    && fd in t && t[fd].kind == Unbound && l in t && t[l].kind == Listening && u.Keys == t.Keys
    && Unclaimed(u, fd) && u[fd].backlog == []
    && u[l] == t[l].(backlog := t[l].backlog + [fd])
    && forall x :: x in t && x != fd && x != l ==> u[x] == t[x]
  }

  lemma QueuedKeeps(t: Table, u: Table, fd: int, l: int)
    requires PairInv(t) && WellFormed(u) && Queued(t, u, fd, l)
    ensures PairInv(u)
  {
    UnboundIsPlain(t, fd);
    forall x | x in u && u[x].peer != NO_PEER
      ensures Linked(u, x, u[x].peer)
    {
      assert Linked(t, x, t[x].peer);
    }
    forall m, i | m in u && 0 <= i < |u[m].backlog|
      ensures Unclaimed(u, u[m].backlog[i])
      ensures u[m].backlog[i] == fd ==> m == l && i == |t[l].backlog|
    {
      if i < |t[m].backlog| {
        assert Unclaimed(t, t[m].backlog[i]);
      }
    }
    WaitersOnceAfterConnect(t, u, fd, l);
  }

  lemma ConnectQueues(t: Table, q: Req)
    requires PairInv(t) && q.body.Connect? && DoConnect(t, q).1.err == OK
    ensures Queued(t, DoConnect(t, q).0, q.body.sock, FindListener(t, q.body.port))
  {
  }

  lemma PairingConnect(t: Table, q: Req)
    requires PairInv(t) && q.body.Connect?
    ensures PairInv(DoConnect(t, q).0)
  {
    var (u, r) := DoConnect(t, q);
    if r.err == OK {
      ConnectWellFormed(t, q);
      ConnectQueues(t, q);
      QueuedKeeps(t, u, q.body.sock, FindListener(t, q.body.port));
    }
  }

  lemma WaitersOnceAfterConnect(t: Table, u: Table, fd: int, l: int)
    requires WaitersOnce(t) && l in t && u.Keys == t.Keys
    requires u[l].backlog == t[l].backlog + [fd]
    requires forall m :: m in u && m != l ==> u[m].backlog == t[m].backlog
    requires forall m, i :: m in u && 0 <= i < |u[m].backlog| && u[m].backlog[i] == fd ==> m == l && i == |t[l].backlog|
    ensures WaitersOnce(u)
  {
  }

  /** What a successful accept on listener `l` does to a table that satisfies the invariant: the
      oldest waiting client `a` is linked with the new socket `b`, both with empty queues. */
  predicate Accepted(t: Table, u: Table, l: int, a: int, b: int) {
    && l in t && t[l].backlog != [] && a == t[l].backlog[0] && Unclaimed(t, a) && b !in t && a != l
    && u.Keys == t.Keys + {b}
    && Linked(u, a, b) && u[a].rx == [] && u[b].rx == [] && u[a].backlog == [] && u[b].backlog == []
    && u[l] == t[l].(backlog := t[l].backlog[1..])
    && forall x :: x in t && x != a && x != l ==> u[x] == t[x]
  }

  lemma AcceptLinks(t: Table, q: Req)
    requires PairInv(t) && q.body.Accept? && DoAccept(t, q).1.err == OK
    ensures q.body.sock in t && t[q.body.sock].kind == Listening && t[q.body.sock].backlog != []
    ensures Accepted(t, DoAccept(t, q).0, q.body.sock, t[q.body.sock].backlog[0], DoAccept(t, q).1.body.newSock)
  {
  }

  lemma AcceptedKeeps(t: Table, u: Table, l: int, a: int, b: int)
    requires PairInv(t) && WellFormed(u) && Accepted(t, u, l, a, b) && t[l].kind == Listening
    ensures PairInv(u)
  {
    forall x | x in u && u[x].peer != NO_PEER
      ensures Linked(u, x, u[x].peer)
    {
      if x != a && x != b {
        assert Linked(t, x, t[x].peer);
      }
    }
    forall m, i | m in u && 0 <= i < |u[m].backlog|
      ensures Unclaimed(u, u[m].backlog[i])
    {
      var i' := if m == l then i + 1 else i;
      assert Unclaimed(t, t[m].backlog[i']);
      assert t[m].backlog[i'] != t[l].backlog[0];
    }
    WaitersOnceAfterAccept(t, u, l);
  }

  lemma PairingAccept(t: Table, q: Req)
    requires PairInv(t) && q.body.Accept?
    ensures PairInv(DoAccept(t, q).0)
  {
    var (u, r) := DoAccept(t, q);
    if r.err == OK {
      AcceptWellFormed(t, q);
      AcceptLinks(t, q);
      AcceptedKeeps(t, u, q.body.sock, t[q.body.sock].backlog[0], r.body.newSock);
    }
  }

  lemma WaitersOnceAfterAccept(t: Table, u: Table, fd: int)
    requires WaitersOnce(t) && fd in t && fd in u && t[fd].backlog != [] && u[fd].backlog == t[fd].backlog[1..]
    requires forall m :: m in u && m != fd && u[m].backlog != [] ==> m in t && u[m].backlog == t[m].backlog
    ensures WaitersOnce(u)
  {
  }

  /** Moving bytes in or out of a linked connection, or out of any connection. */
  lemma PairingRx(t: Table, fd: int, rx: seq<byte>)
    requires PairInv(t) && fd in t && t[fd].kind == Connected && |rx| <= RXBUF_SIZE
    requires rx == [] || t[fd].peer != NO_PEER || !Waits(t, fd)
    ensures PairInv(t[fd := t[fd].(rx := rx)])
  {
  }

  lemma PairingTransfer(t: Table, q: Req)
    requires PairInv(t) && (q.body.Send? || q.body.Recv?)
    ensures PairInv(Step(t, q).0)
  {
    var u := Step(t, q).0;
    var fd := q.body.sock;
    if u != t {
      if q.body.Send? {
        assert Linked(t, fd, t[fd].peer);
        PairingRx(t, t[fd].peer, u[t[fd].peer].rx);
      } else {
        if Waits(t, fd) {
          var l :| l in t && fd in t[l].backlog;
          var i :| 0 <= i < |t[l].backlog| && t[l].backlog[i] == fd;
          assert Unclaimed(t, t[l].backlog[i]);
        }
        PairingRx(t, fd, u[fd].rx);
      }
    }
  }

  lemma PairingClose(t: Table, q: Req)
    requires PairInv(t) && q.body.Close? && TameReq(t, q)
    ensures PairInv(DoClose(t, q).0)
  {
    var u := DoClose(t, q).0;
    var fd := q.body.sock;
    if u != t {
      CloseWellFormed(t, q);
      forall x | x in u && u[x].peer != NO_PEER
        ensures Linked(u, x, u[x].peer)
      {
        assert Linked(t, x, t[x].peer);
      }
      forall l, i | l in u && 0 <= i < |u[l].backlog|
        ensures Unclaimed(u, u[l].backlog[i])
      {
        assert Unclaimed(t, t[l].backlog[i]);
        assert t[l].backlog[i] in t[l].backlog;
      }
    }
  }

  /** Closing a waiting descriptor leaves a backlog naming a descriptor that is not open. */
  lemma WildCloseBreaks(t: Table, q: Req)
    requires PairInv(t) && !TameReq(t, q)
    ensures !PairInv(Step(t, q).0)
  {
  }

  /** From a state that satisfies the invariant, a request keeps it exactly when it is tame. */
  lemma PairingStep(t: Table, q: Req)
    requires PairInv(t)
    ensures PairInv(Step(t, q).0) <==> TameReq(t, q)
  {
    if !TameReq(t, q) {
      WildCloseBreaks(t, q);
    } else {
      match q.body
      case Socket(_, _, _, _) => PairingSetup(t, q);
      case Bind(_, _) => PairingSetup(t, q);
      case Listen(_, _) => PairingSetup(t, q);
      case Close(_) => PairingClose(t, q);
      case Connect(_, _) => PairingConnect(t, q);
      case Accept(_, _, _) => PairingAccept(t, q);
      case Send(_, _, _, _) => PairingTransfer(t, q);
      case Recv(_, _, _, _) => PairingTransfer(t, q);
      case _ =>
    }
  }

  // ---- Whole runs --------------------------------------------------------

  lemma {:induction false} PairingRun(t: Table, qs: seq<Req>)
    requires PairInv(t) && Tame(t, qs)
    ensures PairInv(Exec(t, qs))
  {
    if qs != [] {
      var n := |qs| - 1;
      TamePrefix(t, qs, n);
      PairingRun(t, qs[..n]);
      PairingStep(Exec(t, qs[..n]), qs[n]);
    }
  }

  lemma TamePrefix(t: Table, qs: seq<Req>, n: nat)
    requires n <= |qs| && Tame(t, qs)
    ensures Tame(t, qs[..n])
  {
    forall i | 0 <= i < n
      ensures TameReq(Exec(t, qs[..n][..i]), qs[..n][i])
    {
      assert qs[..n][..i] == qs[..i];
    }
  }

  /** A run from the empty table satisfies the pairing invariant throughout exactly when no
      descriptor is closed while it waits in a backlog. */
  lemma {:induction false} PairingExact(qs: seq<Req>)
    ensures Tame(map[], qs) <==> forall n :: 0 <= n <= |qs| ==> PairInv(Exec(map[], qs[..n]))
  {
    if Tame(map[], qs) {
      forall n | 0 <= n <= |qs|
        ensures PairInv(Exec(map[], qs[..n]))
      {
        TamePrefix(map[], qs, n);
        PairingRun(map[], qs[..n]);
      }
    }
    if forall n :: 0 <= n <= |qs| ==> PairInv(Exec(map[], qs[..n])) {
      forall i | 0 <= i < |qs|
        ensures TameReq(Exec(map[], qs[..i]), qs[i])
      {
        ExecOne(map[], qs, i);
        assert PairInv(Exec(map[], qs[..i + 1]));
        PairingStep(Exec(map[], qs[..i]), qs[i]);
      }
    }
  }

  // ---- The run that shows tameness is needed -----------------------------

  const PORT: u16 := 1234

  /** Open a listener on descriptor 3. */
  const LISTENER_UP: seq<Req> := [Req(0, Body.Socket(2, 1, 0, 0)), Req(0, Bind(3, PORT)), Req(0, Listen(3, 4))]
  /** Open descriptor 4 and connect it; it now waits in the backlog. */
  const CLIENT_WAITS: seq<Req> := [Req(0, Body.Socket(2, 1, 0, 0)), Req(0, Connect(4, PORT))]
  /** Close the client before it is accepted, then accept. */
  const WILD_ACCEPT: seq<Req> := [Req(0, Close(4)), Req(0, Accept(3, 0, 0))]

  lemma ExecTwo(t: Table, q: Req, r: Req)
    ensures Exec(t, [q, r]) == Step(Step(t, q).0, r).0
  {
    var qs := [q, r];
    ExecOne(t, qs, 0);
    ExecOne(t, qs, 1);
    assert qs[..0] == [] && qs[..2] == qs;
  }

  lemma ListenerIsUp()
    ensures Exec(map[], LISTENER_UP) == map[3 := FreshSock(Listening, 2, 1, 0).(localPort := PORT)]
  {
    var t0: Table := map[];
    FirstFree(t0, 3);
    var t1 := Step(t0, LISTENER_UP[0]).0;
    var t2 := Step(t1, LISTENER_UP[1]).0;
    assert t1 == map[3 := FreshSock(Unbound, 2, 1, 0)];
    assert t2 == map[3 := t1[3].(localPort := PORT)];
    ExecTwo(t0, LISTENER_UP[0], LISTENER_UP[1]);
    assert LISTENER_UP[..2] == [LISTENER_UP[0], LISTENER_UP[1]];
  }

  lemma ClientIsWaiting(t: Table)
    requires t == map[3 := FreshSock(Listening, 2, 1, 0).(localPort := PORT)]
    ensures var u := Exec(t, CLIENT_WAITS); u.Keys == {3, 4} && u[3] == t[3].(backlog := [4]) && Unclaimed(u, 4)
  {
    FirstFree(t, 4);
    var t1 := Step(t, CLIENT_WAITS[0]).0;
    assert t1 == t[4 := FreshSock(Unbound, 2, 1, 0)];
    assert ListensOn(t1, 3, PORT) && FindListener(t1, PORT) == 3;
    ExecTwo(t, CLIENT_WAITS[0], CLIENT_WAITS[1]);
  }

  lemma WildAcceptSelfPairs(t: Table)
    requires t.Keys == {3, 4} && t[3].kind == Listening && t[3].backlog == [4] && Unclaimed(t, 4)
    ensures !TameReq(t, WILD_ACCEPT[0])
    ensures var u := Exec(t, WILD_ACCEPT); 4 in u && u[4].kind == Connected && u[4].peer == 4
  {
    var t1 := Step(t, WILD_ACCEPT[0]).0;
    assert t1 == map[3 := t[3]];
    FirstFree(t1, 4);
    ExecTwo(t, WILD_ACCEPT[0], WILD_ACCEPT[1]);
  }

  /** A run with a single untame request ends with descriptor 4 connected to itself. */
  lemma SelfPairWitness()
    ensures var qs := LISTENER_UP + CLIENT_WAITS + WILD_ACCEPT;
            var t := Exec(map[], qs);
            && !Tame(map[], qs)
            && 4 in t && t[4].kind == Connected && t[4].peer == 4
  {
    var qs := LISTENER_UP + CLIENT_WAITS;
    ListenerIsUp();
    ExecAppend(map[], LISTENER_UP, CLIENT_WAITS);
    ClientIsWaiting(Exec(map[], LISTENER_UP));
    ExecAppend(map[], qs, WILD_ACCEPT);
    WildAcceptSelfPairs(Exec(map[], qs));
    var rs := qs + WILD_ACCEPT;
    assert rs[..|qs|] == qs && rs[|qs|] == WILD_ACCEPT[0];
    assert !TameReq(Exec(map[], rs[..|qs|]), rs[|qs|]);
  }
}
