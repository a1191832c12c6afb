/** Whole runs of the socket layer: a run is the sequence of requests served so far. */
module Runs {
  import opened Ipc
  import opened SocketSpec

  /** The table after serving `qs` one by one, starting from `t`. */
  function Exec(t: Table, qs: seq<Req>): Table {
    if qs == [] then t else Step(Exec(t, qs[..|qs| - 1]), qs[|qs| - 1]).0
  }

  /** How the requests of the run are answered, in order. */
  function Replies(t: Table, qs: seq<Req>): (r: seq<Req>)
    ensures |r| == |qs|
  {
    if qs == [] then []
    else Replies(t, qs[..|qs| - 1]) + [Step(Exec(t, qs[..|qs| - 1]), qs[|qs| - 1]).1]
  }

  lemma ExecOne(t: Table, qs: seq<Req>, i: nat)
    requires i < |qs|
    ensures Exec(t, qs[..i + 1]) == Step(Exec(t, qs[..i]), qs[i]).0
  {
    assert qs[..i + 1][..i] == qs[..i];
  }

  lemma RepliesOne(t: Table, qs: seq<Req>, i: nat)
    requires i < |qs|
    ensures Replies(t, qs[..i + 1]) == Replies(t, qs[..i]) + [Step(Exec(t, qs[..i]), qs[i]).1]
  {
    assert qs[..i + 1][..i] == qs[..i];
  }

  /** The i-th answer of a run is that of a step from where its first `i` requests lead. */
  lemma {:induction false} ReplyAt(t: Table, qs: seq<Req>, i: nat)
    requires i < |qs|
    ensures Replies(t, qs)[i] == Step(Exec(t, qs[..i]), qs[i]).1
  {
    var n := |qs| - 1;
    if i < n {
      ReplyAt(t, qs[..n], i);
      assert qs[..n][..i] == qs[..i];
    }
  }

  lemma {:induction false} ExecAppend(t: Table, qs: seq<Req>, rs: seq<Req>)
    ensures Exec(t, qs + rs) == Exec(Exec(t, qs), rs)
  {
    if rs == [] {
      assert qs + rs == qs;
    } else {
      var n := |rs| - 1;
      assert (qs + rs)[..|qs + rs| - 1] == qs + rs[..n];
      ExecAppend(t, qs, rs[..n]);
    }
  }

  /** The second part of a run is answered as a run from where the first part ends. */
  lemma {:induction false} RepliesAppend(t: Table, qs: seq<Req>, rs: seq<Req>)
    ensures Replies(t, qs + rs) == Replies(t, qs) + Replies(Exec(t, qs), rs)
  {
    if rs == [] {
      assert qs + rs == qs;
    } else {
      var n := |rs| - 1;
      assert (qs + rs)[..|qs + rs| - 1] == qs + rs[..n];
      RepliesAppend(t, qs, rs[..n]);
      ExecAppend(t, qs, rs[..n]);
    }
  }

  /** Every table of every run is well formed. */
  lemma {:induction false} RunWellFormed(t: Table, qs: seq<Req>)
    requires WellFormed(t)
    ensures WellFormed(Exec(t, qs))
  {
    if qs != [] {
      RunWellFormed(t, qs[..|qs| - 1]);
      StepWellFormed(Exec(t, qs[..|qs| - 1]), qs[|qs| - 1]);
    }
  }
}
