/** Accounting over whole runs, tame or not: descriptors, backlog order, and held ports. */
module Ledger {
  import opened Ipc
  import opened SocketSpec
  import opened Runs
  import opened Stream

  // ---- Descriptors -------------------------------------------------------

  const CAPACITY: nat := FD_MAX - FD_FIRST

  /** Descriptors opened by successful socket and accept requests. */
  function Opened(t: Table, qs: seq<Req>): nat {
    if qs == [] then 0
    else
      var n := |qs| - 1;
      Opened(t, qs[..n])
      + if (qs[n].body.Socket? || qs[n].body.Accept?) && Step(Exec(t, qs[..n]), qs[n]).1.err == OK then 1 else 0
  }

  /** Descriptors closed by successful close requests. */
  function Closed(t: Table, qs: seq<Req>): nat {
    if qs == [] then 0
    else
      var n := |qs| - 1;
      Closed(t, qs[..n]) + if qs[n].body.Close? && Step(Exec(t, qs[..n]), qs[n]).1.err == OK then 1 else 0
  }

  lemma StepKeys(t: Table, q: Req)
    ensures var (u, r) := Step(t, q);
            u.Keys == if r.err != OK then t.Keys
                      else if q.body.Socket? then t.Keys + {AllocFd(t)}
                      else if q.body.Accept? then t.Keys + {AllocFd(t)}
                      else if q.body.Close? then t.Keys - {q.body.sock}
                      else t.Keys
    ensures Step(t, q).1.err == OK && (q.body.Socket? || q.body.Accept?) ==> AllocFd(t) >= 0 && AllocFd(t) !in t
    ensures Step(t, q).1.err == OK && q.body.Close? ==> q.body.sock in t
  {
  }

  /** The integers from `lo` up to but not including `hi`. */
  ghost function Span(lo: int, hi: int): (s: set<int>)
    requires lo <= hi
    ensures |s| == hi - lo && forall i :: i in s <==> lo <= i < hi
    decreases hi - lo
  {
    if lo == hi then {} else Span(lo, hi - 1) + {hi - 1}
  }

  lemma SubsetSize(a: set<int>, b: set<int>)
    requires a <= b
    ensures |a| <= |b| && (|a| == |b| ==> a == b)
  {
    assert b == a + (b - a);
    assert |b| == |a| + |b - a|;
  }

  /** A set of descriptors is full exactly when it has one for every number in the range. */
  lemma KeysFill(keys: set<int>, lo: int, hi: int)
    requires lo <= hi && forall k :: k in keys ==> lo <= k < hi
    ensures |keys| <= hi - lo
    ensures |keys| == hi - lo <==> forall k :: lo <= k < hi ==> k in keys
  {
    var all := Span(lo, hi);
    SubsetSize(keys, all);
    if forall k :: lo <= k < hi ==> k in keys {
      assert keys == all;
    }
  }

  /** The table is full, and only then is there no descriptor to give out, when 125 are open. */
  lemma FullExactly(t: Table)
    requires WellFormed(t)
    ensures |t| <= CAPACITY
    ensures AllocFd(t) < 0 <==> |t| == CAPACITY
  {
    KeysFill(t.Keys, FD_FIRST, FD_MAX);
  }

  /** EMFILE is the answer exactly when 125 descriptors are open; otherwise the lowest free one is
      given out. */
  lemma AllocationExact(t: Table, q: Req)
    requires WellFormed(t)
    requires
      || q.body.Socket?
      || (q.body.Accept? && q.body.sock in t && t[q.body.sock].kind == Listening && t[q.body.sock].backlog != [])
    ensures var r := Step(t, q).1;
            var fd := if q.body.Socket? then r.body.fd else r.body.newSock;
            && (r.err == EMFILE <==> |t| == CAPACITY)
            && (r.err == OK <==> |t| < CAPACITY)
            && (r.err == OK ==> InRange(fd) && fd !in t && forall k :: FD_FIRST <= k < fd ==> k in t)
  {
    FullExactly(t);
  }

  /** At every point of every run the open descriptors are those opened and not closed. */
  lemma {:induction false} DescriptorConservation(qs: seq<Req>)
    ensures var t := Exec(map[], qs);
            |t| == Opened(map[], qs) - Closed(map[], qs) && |t| <= CAPACITY
  {
    RunWellFormed(map[], qs);
    FullExactly(Exec(map[], qs));
    if qs != [] {
      var n := |qs| - 1;
      DescriptorConservation(qs[..n]);
      StepKeys(Exec(map[], qs[..n]), qs[n]);
      assert forall t: Table :: |t| == |t.Keys|;
    }
  }

  // ---- Backlogs ----------------------------------------------------------

  /** The client a request puts into the backlog of listener `l`, if any. */
  function Joins(t: Table, q: Req, l: int): seq<int> {
    if q.body.Connect? && Step(t, q).1.err == OK && FindListener(t, q.body.port) == l then [q.body.sock] else []
  }

  /** The client a request pairs with a new descriptor on behalf of listener `l`, if any. */
  function Leaves(t: Table, q: Req, l: int): seq<int> {
    var (u, r) := Step(t, q);
    if q.body.Accept? && q.body.sock == l && r.err == OK && r.body.Accept? && r.body.newSock in u
    then [u[r.body.newSock].peer] else []
  }

  function Joined(t: Table, qs: seq<Req>, l: int): seq<int> {
    if qs == [] then []
    else Joined(t, qs[..|qs| - 1], l) + Joins(Exec(t, qs[..|qs| - 1]), qs[|qs| - 1], l)
  }

  function Left(t: Table, qs: seq<Req>, l: int): seq<int> {
    if qs == [] then []
    else Left(t, qs[..|qs| - 1], l) + Leaves(Exec(t, qs[..|qs| - 1]), qs[|qs| - 1], l)
  }

  predicate IsListener(t: Table, l: int) {
    InRange(l) && l in t && t[l].kind == Listening
  }

  lemma AcceptFifo(t: Table, q: Req, l: int)
    requires IsListener(t, l) && q.body.Accept?
    ensures IsListener(Step(t, q).0, l) && t[l].backlog == Leaves(t, q, l) + Step(t, q).0[l].backlog
  {
  }

  lemma FifoStep(t: Table, q: Req, l: int)
    requires IsListener(t, l) && q.body != Close(l)
    ensures var u := Step(t, q).0;
            IsListener(u, l) && t[l].backlog + Joins(t, q, l) == Leaves(t, q, l) + u[l].backlog
  {
    if q.body.Accept? {
      AcceptFifo(t, q, l);
    }
  }

  /** While a listener stays open, clients leave its backlog in the order in which they joined it:
      the clients it has handed out, followed by those still waiting, are those that were waiting at
      the start followed by those whose connect succeeded since. */
  lemma {:induction false} BacklogFifo(t: Table, qs: seq<Req>, l: int)
    requires IsListener(t, l) && !Closes(qs, l)
    ensures IsListener(Exec(t, qs), l)
    ensures t[l].backlog + Joined(t, qs, l) == Left(t, qs, l) + Exec(t, qs)[l].backlog
  {
    if qs != [] {
      var n := |qs| - 1;
      ClosesLast(qs, l);
      BacklogFifo(t, qs[..n], l);
      var u := Exec(t, qs[..n]);
      FifoStep(u, qs[n], l);
      Glue(t[l].backlog, Joined(t, qs[..n], l), Joins(u, qs[n], l),
           Left(t, qs[..n], l), Leaves(u, qs[n], l), u[l].backlog, Exec(t, qs)[l].backlog);
    }
  }

  // ---- Ports -------------------------------------------------------------

  /** The request closes the only socket that holds the port. */
  predicate ReleasesPort(t: Table, q: Req, port: u16) {
    q.body.Close? && Holds(t, q.body.sock, port)
    && forall fd :: FD_FIRST <= fd < FD_MAX && Holds(t, fd, port) ==> fd == q.body.sock
  }

  /** A socket that holds a port holds it until it is closed. */
  lemma HolderKeeps(t: Table, q: Req, fd: int, port: u16)
    requires Holds(t, fd, port) && q.body != Close(fd)
    ensures Holds(Step(t, q).0, fd, port)
  {
  }

  /** A port in use stays in use under every request except the close of its last holder, which
      always frees it. */
  lemma PortStep(t: Table, q: Req, port: u16)
    requires WellFormed(t) && PortInUse(t, port)
    ensures PortInUse(Step(t, q).0, port) <==> !ReleasesPort(t, q, port)
  {
    if ReleasesPort(t, q, port) {
      var u := Step(t, q).0;
      forall fd | FD_FIRST <= fd < FD_MAX
        ensures !Holds(u, fd, port)
      {
        assert Holds(u, fd, port) ==> Holds(t, fd, port);
      }
    } else {
      var fd :| FD_FIRST <= fd < FD_MAX && Holds(t, fd, port) && q.body != Close(fd);
      HolderKeeps(t, q, fd, port);
    }
  }

  /** No request of the run closes the last holder of the port. */
  ghost predicate NeverReleased(t: Table, qs: seq<Req>, port: u16) {
    forall i :: 0 <= i < |qs| ==> !ReleasesPort(Exec(t, qs[..i]), qs[i], port)
  }

  lemma {:induction false} PortRun(t: Table, qs: seq<Req>, port: u16)
    requires WellFormed(t) && PortInUse(t, port) && NeverReleased(t, qs, port)
    ensures PortInUse(Exec(t, qs), port)
  {
    if qs != [] {
      var n := |qs| - 1;
      forall i | 0 <= i < n
        ensures !ReleasesPort(Exec(t, qs[..n][..i]), qs[..n][i], port)
      {
        assert qs[..n][..i] == qs[..i];
      }
      PortRun(t, qs[..n], port);
      RunWellFormed(t, qs[..n]);
      PortStep(Exec(t, qs[..n]), qs[n], port);
    }
  }

  /** A connection accepted on a listener has its domain, type and protocol and holds its port, which is
      also the port reported to the caller. */
  lemma AcceptInherits(t: Table, q: Req)
    requires q.body.Accept? && Step(t, q).1.err == OK
    ensures var l, (u, r) := t[q.body.sock], Step(t, q);
            && Holds(u, r.body.newSock, l.localPort) && r.body.peerPort == l.localPort
            && u[r.body.newSock].domain == l.domain && u[r.body.newSock].typ == l.typ
            && u[r.body.newSock].proto == l.proto
  {
  }

  /** After a successful listen on a port, and until the last listener or connection with that local
      port is closed, every bind of the port by an unbound socket is refused with EADDRINUSE. */
  lemma {:induction false} PortHold(t: Table, listen: Req, qs: seq<Req>, bind: Req)
    requires WellFormed(t) && listen.body.Listen? && Step(t, listen).1.err == OK && bind.body.Bind?
    requires bind.body.port == t[listen.body.sock].localPort
    requires NeverReleased(Step(t, listen).0, qs, bind.body.port)
    ensures var u := Exec(Step(t, listen).0, qs);
            bind.body.sock in u && u[bind.body.sock].kind == Unbound ==> Step(u, bind) == (u, bind.(err := EADDRINUSE))
  {
    StepWellFormed(t, listen);
    assert Holds(Step(t, listen).0, listen.body.sock, bind.body.port);
    PortRun(Step(t, listen).0, qs, bind.body.port);
  }
}
