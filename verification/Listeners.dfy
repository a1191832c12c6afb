/** When a port has one listener. Binding checks a port against listeners and connections only, so two
    sockets can be bound to one port before either listens, and listen does not check again. */
module Listeners {
  import opened Ipc
  import opened SocketSpec
  import opened Runs

  /** Both descriptors listen on one port. */
  predicate Rivals(t: Table, a: int, b: int) {
    a in t && b in t && t[a].kind == Listening && t[b].kind == Listening && t[a].localPort == t[b].localPort
  }

  /** No port has two listeners. */
  ghost predicate OneListener(t: Table) {
    forall a, b :: Rivals(t, a, b) ==> a == b
  }

  /** A socket that may listen is told to, while its port has a listener: the check listen lacks. */
  predicate SecondListen(t: Table, q: Req) {
    && q.body.Listen? && q.body.sock in t && t[q.body.sock].kind == Unbound
    && t[q.body.sock].localPort != 0 && FindListener(t, t[q.body.sock].localPort) >= 0
  }

  /** No request but a successful listen makes a listener or changes the port of one. */
  lemma ListenersKept(t: Table, q: Req, a: int)
    requires a in Step(t, q).0 && Step(t, q).0[a].kind == Listening
    ensures (q.body.Listen? && q.body.sock == a && Step(t, q).1.err == OK)
            || (a in t && t[a].kind == Listening && t[a].localPort == Step(t, q).0[a].localPort)
  {
  }

  lemma ListenMakesSecond(t: Table, q: Req)
    requires WellFormed(t) && SecondListen(t, q)
    ensures !OneListener(Step(t, q).0)
  {
    var u, a := Step(t, q).0, q.body.sock;
    var b := FindListener(t, t[a].localPort);
    assert ListensOn(t, b, t[a].localPort);
    assert Rivals(u, a, b);
  }

  /** From a table in which every port has at most one listener, a request keeps it so exactly when it
      is not a listen on a port that already has a listener. */
  lemma OneListenerStep(t: Table, q: Req)
    requires WellFormed(t) && OneListener(t)
    ensures OneListener(Step(t, q).0) <==> !SecondListen(t, q)
  {
    var u := Step(t, q).0;
    if SecondListen(t, q) {
      ListenMakesSecond(t, q);
    } else {
      forall a, b | Rivals(u, a, b)
        ensures a == b
      {
        ListenersKept(t, q, a);
        ListenersKept(t, q, b);
        if Rivals(t, a, b) {
          assert a == b;
        } else {
          NotSecond(t, q);
        }
      }
    }
  }

  lemma NotSecond(t: Table, q: Req)
    requires WellFormed(t) && !SecondListen(t, q) && q.body.Listen? && Step(t, q).1.err == OK
    ensures forall a :: a in t && t[a].kind == Listening ==> t[a].localPort != t[q.body.sock].localPort
  {
    forall a | a in t && t[a].kind == Listening
      ensures t[a].localPort != t[q.body.sock].localPort
    {
      assert !ListensOn(t, a, t[q.body.sock].localPort);
    }
  }

  /** No request of the run is a listen on a port that has a listener. */
  ghost predicate FirstListens(t: Table, qs: seq<Req>) {
    forall i :: 0 <= i < |qs| ==> !SecondListen(Exec(t, qs[..i]), qs[i])
  }

  lemma {:induction false} OneListenerRun(t: Table, qs: seq<Req>, n: nat)
    requires WellFormed(t) && OneListener(t) && FirstListens(t, qs) && n <= |qs|
    ensures OneListener(Exec(t, qs[..n]))
  {
    if n == 0 {
      assert qs[..0] == [];
    } else {
      OneListenerRun(t, qs, n - 1);
      ExecOne(t, qs, n - 1);
      RunWellFormed(t, qs[..n - 1]);
      OneListenerStep(Exec(t, qs[..n - 1]), qs[n - 1]);
    }
  }

  /** Throughout a run from start-up every port has at most one listener exactly when no socket is told
      to listen on a port that has a listener. */
  lemma {:induction false} OneListenerExact(qs: seq<Req>)
    ensures FirstListens(map[], qs) <==> forall n :: 0 <= n <= |qs| ==> OneListener(Exec(map[], qs[..n]))
  {
    if FirstListens(map[], qs) {
      forall n | 0 <= n <= |qs|
        ensures OneListener(Exec(map[], qs[..n]))
      {
        OneListenerRun(map[], qs, n);
      }
    }
    if forall n :: 0 <= n <= |qs| ==> OneListener(Exec(map[], qs[..n])) {
      forall i | 0 <= i < |qs|
        ensures !SecondListen(Exec(map[], qs[..i]), qs[i])
      {
        assert OneListener(Exec(map[], qs[..i])) && OneListener(Exec(map[], qs[..i + 1]));
        ExecOne(map[], qs, i);
        RunWellFormed(map[], qs[..i]);
        OneListenerStep(Exec(map[], qs[..i]), qs[i]);
      }
    }
  }

  /** With one listener per port, a connect reaches every listener there is on the port. */
  lemma ConnectReachesListener(t: Table, q: Req, l: int)
    requires WellFormed(t) && OneListener(t)
    requires q.body.Connect? && Step(t, q).1.err == OK && ListensOn(t, l, q.body.port)
    ensures Step(t, q).0[l].backlog == t[l].backlog + [q.body.sock]
  {
    assert Rivals(t, l, FindListener(t, q.body.port));
  }

  // ---- Two listeners on one port -----------------------------------------

  const OPEN: Req := Req(0, Body.Socket(2, 1, 0, 0))

  /** Three sockets are opened. */
  lemma ThreeOpen(port: u16)
    ensures Exec(map[], TwoListenersRun(port)[..3]) ==
            map[3 := FreshSock(Unbound, 2, 1, 0), 4 := FreshSock(Unbound, 2, 1, 0), 5 := FreshSock(Unbound, 2, 1, 0)]
  {
    var qs, s := TwoListenersRun(port), FreshSock(Unbound, 2, 1, 0);
    var t0: Table := map[];
    FirstFree(t0, 3);
    FirstFree(map[3 := s], 4);
    FirstFree(map[3 := s, 4 := s], 5);
    ExecOne(t0, qs, 0);
    ExecOne(t0, qs, 1);
    ExecOne(t0, qs, 2);
    assert qs[..0] == [];
    assert Exec(t0, qs[..1]) == map[3 := s];
    assert Exec(t0, qs[..2]) == map[3 := s, 4 := s];
  }

  /** Open three sockets, bind two of them to one port, let both listen, connect the third. */
  function TwoListenersRun(port: u16): seq<Req> {
    [OPEN, OPEN, OPEN, Req(0, Bind(3, port)), Req(0, Bind(4, port)),
     Req(0, Listen(3, 1)), Req(0, Listen(4, 1)), Req(0, Connect(5, port))]
  }

  /** Among unbound sockets a bind always succeeds. */
  lemma BindsFreely(t: Table, fd: int, port: u16)
    requires fd in t && forall k :: k in t ==> t[k].kind == Unbound
    ensures Step(t, Req(0, Bind(fd, port))).0 == t[fd := t[fd].(localPort := port)]
  {
  }

  function Bound(port: u16): Sock {
    FreshSock(Unbound, 2, 1, 0).(localPort := port)
  }

  lemma BothBound(port: u16)
    ensures Exec(map[], TwoListenersRun(port)[..5]) ==
            map[3 := Bound(port), 4 := Bound(port), 5 := FreshSock(Unbound, 2, 1, 0)]
  {
    var qs := TwoListenersRun(port);
    ThreeOpen(port);
    BindsFreely(Exec(map[], qs[..3]), 3, port);
    ExecOne(map[], qs, 3);
    BindsFreely(Exec(map[], qs[..4]), 4, port);
    ExecOne(map[], qs, 4);
  }

  /** Nothing stops the second of two sockets bound to one port from listening. */
  lemma BothListen(port: u16)
    requires port != 0
    ensures SecondListen(Exec(map[], TwoListenersRun(port)[..6]), TwoListenersRun(port)[6])
    ensures Exec(map[], TwoListenersRun(port)[..7]) ==
            map[3 := Bound(port).(kind := Listening), 4 := Bound(port).(kind := Listening),
                5 := FreshSock(Unbound, 2, 1, 0)]
  {
    var qs := TwoListenersRun(port);
    BothBound(port);
    ExecOne(map[], qs, 5);
    assert ListensOn(Exec(map[], qs[..6]), 3, port);
    ExecOne(map[], qs, 6);
  }

  /** On every port but 0, a run from start-up ends with two listeners; a second listen is the cause,
      and the connect after it goes to the lower descriptor. */
  lemma {:induction false} TwoListenersWitness(port: u16)
    requires port != 0
    ensures var qs := TwoListenersRun(port);
            var t := Exec(map[], qs);
            && SecondListen(Exec(map[], qs[..6]), qs[6])
            && ListensOn(t, 3, port) && ListensOn(t, 4, port) && !OneListener(t)
            && t[3].backlog == [5] && t[4].backlog == []
  {
    var qs := TwoListenersRun(port);
    BothListen(port);
    var t7 := Exec(map[], qs[..7]);
    assert ListensOn(t7, 3, port) && FindListener(t7, port) == 3;
    ExecOne(map[], qs, 7);
    assert qs[..8] == qs;
    assert Rivals(Exec(map[], qs), 3, 4);
  }
}
