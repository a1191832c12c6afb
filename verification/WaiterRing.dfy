/** The waiter list of a condition variable: a fixed ring of 32 entries with write index `head`, read
    index `tail` and `count`, refining a first-in first-out sequence. */
module WaiterRing {
  const MAX_WAITERS: nat := 32

  datatype Waiter = Waiter(task: int, sigmask: int)

  /** The slot of the i-th live entry. */
  function Slot(tail: int, i: int): (k: int)
    requires 0 <= tail < MAX_WAITERS && 0 <= i <= MAX_WAITERS
    ensures 0 <= k < MAX_WAITERS
  {
    if tail + i < MAX_WAITERS then tail + i else tail + i - MAX_WAITERS
  }

  lemma SlotIsModular(tail: int, i: int)
    requires 0 <= tail < MAX_WAITERS && 0 <= i <= MAX_WAITERS
    ensures (tail + i) % MAX_WAITERS == Slot(tail, i)
    ensures i < MAX_WAITERS ==> (Slot(tail, i) + 1) % MAX_WAITERS == Slot(tail, i + 1)
    ensures i > 0 ==> (Slot(tail, i) - 1 + MAX_WAITERS) % MAX_WAITERS == Slot(tail, i - 1)
  {
  }

  /** The live entries of a ring, oldest first. */
  function View(ws: seq<Waiter>, tail: int, count: int): seq<Waiter>
    requires |ws| == MAX_WAITERS && 0 <= tail < MAX_WAITERS && 0 <= count <= MAX_WAITERS
  {
    seq(count, i requires 0 <= i < count => ws[Slot(tail, i)])
  }

  /** `s` without its first occurrence of `w`. */
  function RemoveFirst(s: seq<Waiter>, w: Waiter): seq<Waiter> {
    if s == [] then []
    else if s[0] == w then s[1..]
    else [s[0]] + RemoveFirst(s[1..], w)
  }

  lemma {:induction false} RemoveAbsent(s: seq<Waiter>, w: Waiter)
    requires w !in s
    ensures RemoveFirst(s, w) == s
  {
    if s != [] {
      RemoveAbsent(s[1..], w);
    }
  }

  /** Removal keeps the order of everything else. */
  lemma {:induction false} RemoveAt(s: seq<Waiter>, w: Waiter, k: nat)
    requires k < |s| && s[k] == w && w !in s[..k]
    ensures RemoveFirst(s, w) == s[..k] + s[k + 1..]
  {
    if k > 0 {
      assert s[0] == s[..k][0];
      assert s[1..][..k - 1] == s[..k][1..];
      RemoveAt(s[1..], w, k - 1);
      assert s[1..][k..] == s[k + 1..];
      assert [s[0]] + (s[1..][..k - 1] + s[k + 1..]) == s[..k] + s[k + 1..];
    }
  }

  /** Writing the slot of position `j` changes that entry of the queue and no other. */
  lemma ViewSet(ws: seq<Waiter>, tail: int, count: int, j: int, w: Waiter)
    requires |ws| == MAX_WAITERS && 0 <= tail < MAX_WAITERS && 0 <= j < count <= MAX_WAITERS
    ensures View(ws[Slot(tail, j) := w], tail, count) == View(ws, tail, count)[j := w]
  {
  }

  lemma ViewPush(ws: seq<Waiter>, tail: int, count: int, w: Waiter)
    requires |ws| == MAX_WAITERS && 0 <= tail < MAX_WAITERS && 0 <= count < MAX_WAITERS
    ensures View(ws[Slot(tail, count) := w], tail, count + 1) == View(ws, tail, count) + [w]
  {
  }

  lemma ViewPop(ws: seq<Waiter>, tail: int, count: int)
    requires |ws| == MAX_WAITERS && 0 <= tail < MAX_WAITERS && 0 < count <= MAX_WAITERS
    ensures View(ws, tail, count) == [ws[tail]] + View(ws, Slot(tail, 1), count - 1)
  {
  }

  lemma ViewDropLast(ws: seq<Waiter>, tail: int, count: int)
    requires |ws| == MAX_WAITERS && 0 <= tail < MAX_WAITERS && 0 < count <= MAX_WAITERS
    ensures View(ws, tail, count - 1) == View(ws, tail, count)[..count - 1]
  {
  }

  /** `s` after the entries at `i + 1..j + 1` have each been copied one place down. */
  function Shifted(s: seq<Waiter>, i: int, j: int): (r: seq<Waiter>)
    requires 0 <= i <= j < |s|
    ensures |r| == |s|
    ensures forall m :: 0 <= m < i || j <= m < |s| ==> r[m] == s[m]
    ensures forall m :: i <= m < j ==> r[m] == s[m + 1]
    decreases j
  {
    if i == j then s else Shifted(s, i, j - 1)[j - 1 := s[j]]
  }

  lemma ShiftAll(s: seq<Waiter>, i: int)
    requires 0 <= i < |s|
    ensures Shifted(s, i, |s| - 1)[..|s| - 1] == s[..i] + s[i + 1..]
  {
  }

  lemma FrontOf(s: seq<Waiter>, i: int, w: Waiter, rest: seq<Waiter>)
    requires 0 <= i <= |s| && s[i..] == [w] + rest
    ensures i < |s| && s[..i] + [w] == s[..i + 1] && rest == s[i + 1..]
  {
    assert s[i..][0] == w && s[i..][1..] == rest;
  }

  class CvRing {
    const waiters: array<Waiter>
    var head: int    // next slot to write
    var tail: int    // next slot to read
    var count: int

    ghost predicate Valid()
      reads this
    {
      && waiters.Length == MAX_WAITERS
      && 0 <= tail < MAX_WAITERS && 0 <= count <= MAX_WAITERS
      && head == Slot(tail, count)
    }

    ghost function Contents(): seq<Waiter>
      requires Valid()
      reads this, waiters
    {
      View(waiters[..], tail, count)
    }

    constructor ()
      ensures Valid() && Contents() == [] && fresh(waiters)
    {
      waiters := new Waiter[MAX_WAITERS](_ => Waiter(0, 0));
      head, tail, count := 0, 0, 0;
    }

    /** Enqueues a waiter; false is the overflow on which the code panics. */
    method Push(w: Waiter) returns (ok: bool)
      requires Valid()
      modifies this, waiters
      ensures Valid() && ok == (|old(Contents())| < MAX_WAITERS)
      ensures Contents() == if ok then old(Contents()) + [w] else old(Contents())
    {
      if count >= MAX_WAITERS {
        return false;
      }
      SlotIsModular(tail, count);
      ViewPush(waiters[..], tail, count, w);
      ghost var ws := waiters[..];
      waiters[head] := w;
      assert waiters[..] == ws[head := w];
      head := (head + 1) % MAX_WAITERS;
      count := count + 1;
      return true;
    }

    /** Dequeues the oldest waiter. */
    method Pop() returns (w: Waiter)
      requires Valid() && count > 0
      modifies `tail, `count
      ensures Valid() && old(Contents()) == [w] + Contents() && count == old(count) - 1
    {
      SlotIsModular(tail, 1);
      ViewPop(waiters[..], tail, count);
      w := waiters[tail];
      tail := (tail + 1) % MAX_WAITERS;
      count := count - 1;
    }

    /** The loop of a broadcast: empties the ring, waking the waiters in queue order. */
    method PopAll() returns (woken: seq<Waiter>)
      requires Valid()
      modifies `tail, `count
      ensures Valid() && Contents() == [] && woken == old(Contents())
    {
      ghost var before := Contents();
      woken := [];
      while count > 0
        invariant Valid() && |woken| <= |before| && woken == before[..|woken|] && Contents() == before[|woken|..]
        decreases count
      {
        var w := Pop();
        FrontOf(before, |woken|, w, Contents());
        woken := woken + [w];
      }
    }

    /** The timeout path: drops the caller's own entry, if it is still queued, and closes the gap. */
    method Remove(me: int, mask: int)
      requires Valid()
      modifies this, waiters
      ensures Valid() && Contents() == RemoveFirst(old(Contents()), Waiter(me, mask))
      ensures tail == old(tail)
    {
      ghost var before := Contents();
      var w := Waiter(me, mask);
      var i, idx := 0, tail;
      while i < count
        invariant tail == old(tail) && count == old(count) && head == old(head)
        invariant 0 <= i <= count && idx == Slot(tail, i)
        invariant Contents() == before && w !in before[..i]
      {
        if waiters[idx].task == me && waiters[idx].sigmask == mask {
          assert before[i] == w;
          RemoveAt(before, w, i);
          CloseGap(i);
          return;
        }
        assert before[i] != w;
        SlotIsModular(tail, i);
        i, idx := i + 1, (idx + 1) % MAX_WAITERS;
      }
      assert before[..i] == before;
      RemoveAbsent(before, w);
    }

    /** Drops the entry at position `i`, keeping the order of the others. */
    method CloseGap(i: int)
      requires Valid() && 0 <= i < count
      modifies this, waiters
      ensures Valid() && Contents() == old(Contents())[..i] + old(Contents())[i + 1..]
      ensures tail == old(tail)
    {
      ShiftAll(Contents(), i);
      ShiftDown(i);
      DropLast();
    }

    /** Shifts the entries behind position `i` one place towards the tail. */
    method ShiftDown(i: int)
      requires Valid() && 0 <= i < count
      modifies waiters
      ensures Contents() == Shifted(old(Contents()), i, count - 1)
    {
      ghost var before := Contents();
      var j := i;
      while j < count - 1
        invariant i <= j <= count - 1
        invariant Contents() == Shifted(before, i, j)
      {
        assert Shifted(before, i, j + 1) == Shifted(before, i, j)[j := before[j + 1]];
        CopyDown(j);
        j := j + 1;
      }
    }

    /** Gives up the newest entry. */
    method DropLast()
      requires Valid() && count > 0
      modifies `head, `count
      ensures Valid() && Contents() == old(Contents())[..old(count) - 1] && count == old(count) - 1
    {
      SlotIsModular(tail, count);
      ViewDropLast(waiters[..], tail, count);
      head := (head - 1 + MAX_WAITERS) % MAX_WAITERS;
      count := count - 1;
    }

    /** One turn of the shifting loop: entry `j + 1` is copied over entry `j`. */
    method CopyDown(j: int)
      requires Valid() && 0 <= j < count - 1
      modifies waiters
      ensures Contents() == old(Contents())[j := old(Contents())[j + 1]]
    {
      SlotIsModular(tail, j);
      var a := (tail + j) % MAX_WAITERS;
      var b := (a + 1) % MAX_WAITERS;
      ViewSet(waiters[..], tail, count, j, waiters[b]);
      ghost var ws := waiters[..];
      waiters[a] := waiters[b];
      assert waiters[..] == ws[a := ws[b]];
    }
  }
}
