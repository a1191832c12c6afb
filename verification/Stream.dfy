/** The byte stream between the two ends of an accepted connection, over whole runs. */
module Stream {
  import opened Ipc
  import opened SocketSpec
  import opened Runs
  import opened Pairing

  // ---- What a run shows at its ends --------------------------------------

  /** The bytes of a request that were accepted from descriptor `a`. */
  function AcceptedFrom(t: Table, q: Req, a: int): seq<byte> {
    var r := Step(t, q).1;
    if q.body.Send? && q.body.sock == a && r.err == OK && 0 <= r.body.sent <= MAX_PAYLOAD
    then q.body.data[..r.body.sent] else []
  }

  /** The bytes a request delivered to descriptor `b`. */
  function DeliveredTo(t: Table, q: Req, b: int): seq<byte> {
    var r := Step(t, q).1;
    if q.body.Recv? && q.body.sock == b && r.err == OK && r.body.Recv? && 0 <= r.body.got <= MAX_PAYLOAD
    then r.body.buf[..r.body.got] else []
  }

  /** A close of `fd` was requested during the run. */
  predicate Closes(qs: seq<Req>, fd: int) {
    exists i :: 0 <= i < |qs| && qs[i].body == Close(fd)
  }

  /** All bytes accepted from `a` before it was first closed. */
  function Sent(t: Table, qs: seq<Req>, a: int): seq<byte> {
    if qs == [] then []
    else
      var n := |qs| - 1;
      Sent(t, qs[..n], a)
      + if Closes(qs[..n], a) then [] else AcceptedFrom(Exec(t, qs[..n]), qs[n], a)
  }

  /** All bytes delivered to `b`. */
  function Received(t: Table, qs: seq<Req>, b: int): seq<byte> {
    if qs == [] then []
    else Received(t, qs[..|qs| - 1], b) + DeliveredTo(Exec(t, qs[..|qs| - 1]), qs[|qs| - 1], b)
  }

  // ---- One step ----------------------------------------------------------

  /** The state of the connection end `b`, whose other end is or was `a`. */
  predicate EndOf(t: Table, a: int, b: int, aClosed: bool) {
    b in t && t[b].kind == Connected && !Waits(t, b) &&
    if aClosed then t[b].peer == NO_PEER else Linked(t, a, b)
  }

  /** Until `b` is closed, a request changes its queue only by what `a` sends and `b` receives. */
  lemma StreamStep(t: Table, q: Req, a: int, b: int, aClosed: bool)
    requires PairInv(t) && EndOf(t, a, b, aClosed) && q.body != Close(b)
    ensures var u := Step(t, q).0;
            && EndOf(u, a, b, aClosed || q.body == Close(a))
            && t[b].rx + (if aClosed then [] else AcceptedFrom(t, q, a)) == DeliveredTo(t, q, b) + u[b].rx
  {
    match q.body
    case Send(fd, _, _, _) => StreamSend(t, q, a, b, aClosed);
    case Recv(fd, _, _, _) => StreamRecv(t, q, a, b, aClosed);
    case Accept(_, _, _) => StreamAccept(t, q, a, b, aClosed);
    case Close(_) => StreamClose(t, q, a, b, aClosed);
    case _ => StreamOther(t, q, a, b, aClosed);
  }

  lemma StreamSend(t: Table, q: Req, a: int, b: int, aClosed: bool)
    requires PairInv(t) && EndOf(t, a, b, aClosed) && q.body.Send?
    ensures var u := Step(t, q).0;
            && EndOf(u, a, b, aClosed)
            && t[b].rx + (if aClosed then [] else AcceptedFrom(t, q, a)) == u[b].rx
  {
    var u := Step(t, q).0;
    var fd := q.body.sock;
    if u != t {
      assert Linked(t, fd, t[fd].peer);
    }
    assert forall l :: l in u ==> u[l].backlog == t[l].backlog;
  }

  lemma StreamRecv(t: Table, q: Req, a: int, b: int, aClosed: bool)
    requires PairInv(t) && EndOf(t, a, b, aClosed) && q.body.Recv?
    ensures var u := Step(t, q).0;
            && EndOf(u, a, b, aClosed)
            && t[b].rx == DeliveredTo(t, q, b) + u[b].rx
  {
    var u := Step(t, q).0;
    assert forall l :: l in u ==> u[l].backlog == t[l].backlog;
    if q.body.sock == b && t[b].rx != [] {
      var n := Take(q.body.want, |t[b].rx|);
      assert t[b].rx == t[b].rx[..n] + t[b].rx[n..];
      assert (t[b].rx[..n] + q.body.buf[n..])[..n] == t[b].rx[..n];
    }
  }

  lemma StreamAccept(t: Table, q: Req, a: int, b: int, aClosed: bool)
    requires PairInv(t) && EndOf(t, a, b, aClosed) && q.body.Accept?
    ensures var u := Step(t, q).0; EndOf(u, a, b, aClosed) && t[b].rx == u[b].rx
  {
  }

  lemma StreamClose(t: Table, q: Req, a: int, b: int, aClosed: bool)
    requires PairInv(t) && EndOf(t, a, b, aClosed) && q.body.Close? && q.body.sock != b
    ensures var u := Step(t, q).0; EndOf(u, a, b, aClosed || q.body.sock == a) && t[b].rx == u[b].rx
  {
  }

  lemma StreamOther(t: Table, q: Req, a: int, b: int, aClosed: bool)
    requires PairInv(t) && EndOf(t, a, b, aClosed)
    requires !q.body.Send? && !q.body.Recv? && !q.body.Accept? && !q.body.Close?
    ensures var u := Step(t, q).0; EndOf(u, a, b, aClosed) && t[b].rx == u[b].rx
  {
    var (u, r) := Step(t, q);
    if q.body.Connect? && r.err == OK {
      ConnectQueues(t, q);
      var l := FindListener(t, q.body.port);
      assert forall m, x :: m in u && x in u[m].backlog ==> x == q.body.sock || x in t[m].backlog;
    } else if u != t {
      var fd := if q.body.Socket? then AllocFd(t) else q.body.sock;
      assert fd in t ==> t[fd].kind == Unbound && t[fd].backlog == [];
      assert u[fd].backlog == [];
    }
  }

  // ---- Whole runs --------------------------------------------------------

  /** From any state of the connection, what was queued at `b` and what `a` sends until it closes
      is what `b` receives followed by what is still queued. */
  lemma {:induction false} StreamRun(t: Table, qs: seq<Req>, a: int, b: int, aClosed: bool)
    requires PairInv(t) && Tame(t, qs) && EndOf(t, a, b, aClosed) && !Closes(qs, b)
    ensures var u := Exec(t, qs);
            && PairInv(u) && EndOf(u, a, b, aClosed || Closes(qs, a))
            && t[b].rx + (if aClosed then [] else Sent(t, qs, a)) == Received(t, qs, b) + u[b].rx
  {
    if qs != [] {
      var n := |qs| - 1;
      var qs', q := qs[..n], qs[n];
      ClosesLast(qs, a);
      ClosesLast(qs, b);
      TamePrefix(t, qs, n);
      StreamRun(t, qs', a, b, aClosed);
      var u := Exec(t, qs');
      PairingStep(u, q);
      var gone := aClosed || Closes(qs', a);
      StreamStep(u, q, a, b, gone);
      Glue(t[b].rx, if aClosed then [] else Sent(t, qs', a), if gone then [] else AcceptedFrom(u, q, a),
           Received(t, qs', b), DeliveredTo(u, q, b), u[b].rx, Step(u, q).0[b].rx);
    }
  }

  lemma ClosesLast(qs: seq<Req>, fd: int)
    requires qs != []
    ensures Closes(qs, fd) <==> Closes(qs[..|qs| - 1], fd) || qs[|qs| - 1].body == Close(fd)
  {
  }

  lemma Glue<T>(x: seq<T>, s: seq<T>, s': seq<T>, r: seq<T>, r': seq<T>, m: seq<T>, m': seq<T>)
    requires x + s == r + m && m + s' == r' + m'
    ensures x + (s + s') == (r + r') + m'
  {
    assert x + (s + s') == (x + s) + s';
    assert (r + m) + s' == r + (m + s');
    assert r + (r' + m') == (r + r') + m';
  }

  lemma {:induction false} TameSuffix(t: Table, xs: seq<Req>, ys: seq<Req>)
    requires Tame(t, xs + ys)
    ensures Tame(t, xs) && Tame(Exec(t, xs), ys)
  {
    TamePrefix(t, xs + ys, |xs|);
    assert (xs + ys)[..|xs|] == xs;
    forall i | 0 <= i < |ys|
      ensures TameReq(Exec(Exec(t, xs), ys[..i]), ys[i])
    {
      ExecAppend(t, xs, ys[..i]);
      assert (xs + ys)[..|xs| + i] == xs + ys[..i] && (xs + ys)[|xs| + i] == ys[i];
    }
  }

  /** The state a successful accept leaves behind: two empty ends of one connection. */
  lemma AcceptOpensStream(t: Table, q: Req)
    requires PairInv(t) && q.body.Accept? && Step(t, q).1.err == OK
    ensures var a, b := t[q.body.sock].backlog[0], Step(t, q).1.body.newSock;
            var u := Step(t, q).0;
            && PairInv(u) && EndOf(u, a, b, false) && EndOf(u, b, a, false) && u[a].rx == [] && u[b].rx == []
  {
    PairingAccept(t, q);
    AcceptLinks(t, q);
    var a, b := t[q.body.sock].backlog[0], Step(t, q).1.body.newSock;
    var u := DoAccept(t, q).0;
    LinkedDoesNotWait(u, a);
    LinkedDoesNotWait(u, b);
  }

  lemma LinkedDoesNotWait(t: Table, a: int)
    requires PairInv(t) && a in t && t[a].peer != NO_PEER
    ensures !Waits(t, a)
  {
  }

  /** End-to-end delivery. In a tame run from start-up, let `accept` succeed and pair client `a`
      with the new descriptor `b`. Whatever else happens, as long as an end has not been closed, the
      bytes accepted from the other end since then (until that end closed) are exactly the bytes this
      end has received followed by the bytes still queued for it. */
  lemma {:induction false} EndToEnd(pre: seq<Req>, accept: Req, post: seq<Req>)
    requires Tame(map[], pre + [accept] + post)
    requires accept.body.Accept? && Step(Exec(map[], pre), accept).1.err == OK
    ensures var t0 := Exec(map[], pre);
            var t := Step(t0, accept).0;
            var a, b := t0[accept.body.sock].backlog[0], Step(t0, accept).1.body.newSock;
            var u := Exec(map[], pre + [accept] + post);
            && a != b
            && (!Closes(post, b) ==> b in u && Sent(t, post, a) == Received(t, post, b) + u[b].rx)
            && (!Closes(post, a) ==> a in u && Sent(t, post, b) == Received(t, post, a) + u[a].rx)
  {
    var t0 := Exec(map[], pre);
    var t := Step(t0, accept).0;
    var a, b := t0[accept.body.sock].backlog[0], Step(t0, accept).1.body.newSock;
    ExecAppend(map[], pre + [accept], post);
    ExecAppend(map[], pre, [accept]);
    TameSuffix(map[], pre + [accept], post);
    TameSuffix(map[], pre, [accept]);
    PairingRun(map[], pre);
    AcceptOpensStream(t0, accept);
    if !Closes(post, b) {
      StreamRun(t, post, a, b, false);
    }
    if !Closes(post, a) {
      StreamRun(t, post, b, a, false);
    }
  }

  /** An end whose peer has gone: every receive on it succeeds and takes the bytes at hand, none when
      the queue is empty, and nothing it sends is accepted. */
  ghost predicate AtEof(t: Table, b: int)
    requires b in t
  {
    && (forall q: Req :: q.body.Recv? && q.body.sock == b ==>
          var r := Step(t, q).1;
          r.err == OK && r.body.Recv? && r.body.got == Take(q.body.want, |t[b].rx|))
    && (forall q: Req :: q.body.Send? && q.body.sock == b ==> Step(t, q) == (t, q.(err := ENOTCONN)))
  }

  lemma OrphanAtEof(t: Table, a: int, b: int)
    requires WellFormed(t) && EndOf(t, a, b, true)
    ensures AtEof(t, b)
  {
  }

  /** Close and reuse. Once `a` has closed its end, whatever the run does next (including reopening
      descriptor `a` for something else), end `b` receives exactly what was queued for it and then
      end of file, and nothing it sends is accepted, until `b` itself is closed. */
  lemma {:induction false} CloseAndReuse(t: Table, close: Req, qs: seq<Req>, a: int, b: int)
    requires PairInv(t) && Linked(t, a, b) && close.body == Close(a)
    requires Tame(t, [close] + qs) && !Closes(qs, b)
    ensures var t' := Step(t, close).0;
            var u := Exec(t, [close] + qs);
            b in u && t[b].rx == Received(t', qs, b) + u[b].rx && AtEof(u, b)
  {
    var t' := Step(t, close).0;
    ExecAppend(t, [close], qs);
    TameSuffix(t, [close], qs);
    assert Exec(t, [close]) == t';
    LinkedDoesNotWait(t, a);
    LinkedDoesNotWait(t, b);
    PairingStep(t, close);
    StreamClose(t, close, a, b, false);
    StreamRun(t', qs, a, b, true);
    OrphanAtEof(Exec(t', qs), a, b);
  }
}
