/** Producer and consumer of a descriptor ring running concurrently. Every load and store of head,
    tail and a slot is a step of its own, in program order; memory is sequentially consistent. */
module SpscProtocol {
  import opened Bits
  import opened SpscRing

  /** Producer: idle, head loaded, tail loaded (with `seen` buffers consumed by then), slot stored. */
  datatype Producer = PIdle | PHead(b: Buf, h: int) | PTail(b: Buf, h: int, t: int, seen: nat) | PStored(b: Buf, h: int)

  /** Consumer: idle, tail loaded, head loaded (with `seen` buffers published by then), slot read. */
  datatype Consumer = CIdle | CTail(t: int) | CHead(t: int, h: int, seen: nat) | CRead(t: int, out: Buf)

  datatype State = State(
    slots: seq<Buf>,
    head: int,
    tail: int,
    prod: Producer,
    cons: Consumer,
    published: seq<Buf>,   // history: all buffers published and consumed so far
    consumed: seq<Buf>)

  predicate RingOf(slots: seq<Buf>) {
    0 < |slots| < 0x1_0000_0000 && IsPowerOfTwo(|slots|)
  }

  function Init(slots: seq<Buf>): State {
    State(slots, 0, 0, PIdle, CIdle, [], [])
  }

  /** Publish(b) starts a publish call by loading head; the others take the next step of a side. */
  datatype Action = Publish(b: Buf) | ProducerStep | Consume | ConsumerStep

  predicate IsFull(h: int, t: int, size: nat) {
    (h - t) % TWO64 >= size
  }

  function Next(s: State, a: Action): State
    requires |s.slots| > 0
  {
    match a
    case Publish(b) => if s.prod.PIdle? then s.(prod := PHead(b, s.head)) else s
    case Consume => if s.cons.CIdle? then s.(cons := CTail(s.tail)) else s
    case ProducerStep => (
      match s.prod
      case PIdle => s
      case PHead(b, h) => s.(prod := PTail(b, h, s.tail, |s.consumed|))
      case PTail(b, h, t, _) =>
        if IsFull(h, t, |s.slots|) then s.(prod := PIdle)
        else s.(slots := s.slots[h % |s.slots| := b], prod := PStored(b, h))
      case PStored(b, h) => s.(head := (h + 1) % TWO64, prod := PIdle, published := s.published + [b]))
    case ConsumerStep => (
      match s.cons
      case CIdle => s
      case CTail(t) => s.(cons := CHead(t, s.head, |s.published|))
      case CHead(t, h, _) =>
        if t == h then s.(cons := CIdle) else s.(cons := CRead(t, s.slots[t % |s.slots|]))
      case CRead(t, out) => s.(tail := (t + 1) % TWO64, cons := CIdle, consumed := s.consumed + [out]))
  }

  // ---- Invariant ---------------------------------------------------------

  predicate Counters(s: State) {
    && 0 < |s.slots| < 0x1_0000_0000 && Divides(|s.slots|, TWO64)
    && s.head == |s.published| % TWO64 && s.tail == |s.consumed| % TWO64
    && |s.consumed| <= |s.published| <= |s.consumed| + |s.slots|
    && s.consumed == s.published[..|s.consumed|]
  }

  /** No live slot has been overwritten. */
  predicate SlotsLive(s: State)
    requires |s.slots| > 0
  {
    forall i :: |s.consumed| <= i < |s.published| ==> s.slots[Index(i, |s.slots|)] == s.published[i]
  }

  predicate ProducerOk(s: State)
    requires |s.slots| > 0
  {
    match s.prod
    case PIdle => true
    case PHead(_, h) => h == s.head
    case PTail(_, h, t, seen) =>
      h == s.head && t == seen % TWO64 && seen <= |s.consumed| && |s.published| <= seen + |s.slots|
    case PStored(b, h) =>
      h == s.head && |s.published| < |s.consumed| + |s.slots| && s.slots[Index(|s.published|, |s.slots|)] == b
  }

  predicate ConsumerOk(s: State) {
    match s.cons
    case CIdle => true
    case CTail(t) => t == s.tail
    case CHead(t, h, seen) =>
      t == s.tail && h == seen % TWO64 && |s.consumed| <= seen <= |s.published| && seen <= |s.consumed| + |s.slots|
    case CRead(t, out) => t == s.tail && |s.consumed| < |s.published| && out == s.published[|s.consumed|]
  }

  predicate Inv(s: State) {
    Counters(s) && SlotsLive(s) && ProducerOk(s) && ConsumerOk(s)
  }

  lemma StoreSlot(s: State)
    requires Inv(s) && s.prod.PTail?
    ensures Inv(Next(s, ProducerStep))
    ensures IsFull(s.prod.h, s.prod.t, |s.slots|) <==> |s.published| == s.prod.seen + |s.slots|
  {
    var n, p := |s.slots|, |s.published|;
    WrappedDistance(s.prod.seen, p);
    SlotOfWrapped(p, n);
    forall i | |s.consumed| <= i < p
      ensures p < |s.consumed| + n ==> Index(i, n) != Index(p, n)
    {
      if p < |s.consumed| + n {
        NearSlotsDiffer(i, p, n);
      }
    }
  }

  lemma StoreHead(s: State)
    requires Inv(s) && s.prod.PStored?
    ensures Inv(Next(s, ProducerStep))
  {
    WrappedNext(|s.published|);
    var s', c := Next(s, ProducerStep), |s.consumed|;
    assert s'.published[..c] == s.published[..c];
    assert forall i :: 0 <= i < |s.published| ==> s'.published[i] == s.published[i];
  }

  lemma ReadSlot(s: State)
    requires Inv(s) && s.cons.CHead?
    ensures Inv(Next(s, ConsumerStep))
    ensures s.cons.t == s.cons.h <==> s.cons.seen == |s.consumed|
  {
    WrappedDistance(|s.consumed|, s.cons.seen);
    SlotOfWrapped(|s.consumed|, |s.slots|);
  }

  lemma StoreTail(s: State)
    requires Inv(s) && s.cons.CRead?
    ensures Inv(Next(s, ConsumerStep))
  {
    WrappedNext(|s.consumed|);
  }

  lemma InvStep(s: State, a: Action)
    requires Inv(s)
    ensures Inv(Next(s, a))
  {
    match a
    case Publish(_) =>
    case Consume =>
    case ProducerStep =>
      if s.prod.PTail? {
        StoreSlot(s);
      } else if s.prod.PStored? {
        StoreHead(s);
      }
    case ConsumerStep =>
      if s.cons.CHead? {
        ReadSlot(s);
      } else if s.cons.CRead? {
        StoreTail(s);
      }
  }

  // ---- Whole runs --------------------------------------------------------

  function Exec(s: State, acts: seq<Action>): (r: State)
    requires |s.slots| > 0
    ensures |r.slots| == |s.slots|
  {
    if acts == [] then s else Next(Exec(s, acts[..|acts| - 1]), acts[|acts| - 1])
  }

  lemma {:induction false} RunInv(slots: seq<Buf>, acts: seq<Action>)
    requires RingOf(slots)
    ensures Inv(Exec(Init(slots), acts))
  {
    if acts == [] {
      SizeTest(|slots|);
      AcceptedSizesDivide(|slots|);
    } else {
      RunInv(slots, acts[..|acts| - 1]);
      InvStep(Exec(Init(slots), acts[..|acts| - 1]), acts[|acts| - 1]);
    }
  }

  /** In every interleaving, of any length and across any number of wraps of the sequence numbers:
      the consumed buffers are a prefix of the published ones, at most ring-size buffers are
      outstanding, and every outstanding buffer is intact in its slot. */
  lemma {:induction false} SpscSafety(slots: seq<Buf>, acts: seq<Action>)
    requires RingOf(slots)
    ensures var s := Exec(Init(slots), acts);
            && s.consumed <= s.published
            && |s.published| - |s.consumed| <= |slots|
            && forall i :: |s.consumed| <= i < |s.published| ==> s.slots[i % |slots|] == s.published[i]
  {
    RunInv(slots, acts);
    var s := Exec(Init(slots), acts);
    forall i | |s.consumed| <= i < |s.published|
      ensures s.slots[i % |slots|] == s.published[i]
    {
      IndexIsRemainder(i, |slots|);
    }
  }

  /** A publish is refused only if the ring was full when the producer loaded tail, and a consume
      only if it was empty when the consumer loaded head. */
  lemma {:induction false} RefusalsJustified(slots: seq<Buf>, acts: seq<Action>)
    requires RingOf(slots)
    ensures var s := Exec(Init(slots), acts);
            && (s.prod.PTail? ==>
                  (Next(s, ProducerStep).prod.PIdle? <==> |s.published| - s.prod.seen == |slots|))
            && (s.cons.CHead? ==>
                  (Next(s, ConsumerStep).cons.CIdle? <==> s.cons.seen == |s.consumed|))
  {
    RunInv(slots, acts);
    var s := Exec(Init(slots), acts);
    if s.prod.PTail? {
      StoreSlot(s);
    }
    if s.cons.CHead? {
      ReadSlot(s);
    }
  }

  // ---- Calls that nobody disturbs ----------------------------------------

  lemma Snoc(s: State, acts: seq<Action>, a: Action)
    requires |s.slots| > 0
    ensures Exec(s, acts + [a]) == Next(Exec(s, acts), a)
  {
    assert (acts + [a])[..|acts|] == acts;
  }

  lemma PublishSteps(s: State, s1: State, s2: State, s3: State, s4: State, b: Buf)
    requires Inv(s) && s.prod.PIdle? && |s.published| < |s.consumed| + |s.slots|
    requires s1 == Next(s, Publish(b)) && s2 == Next(s1, ProducerStep) && |s2.slots| > 0 && s3 == Next(s2, ProducerStep)
    requires |s3.slots| > 0 && s4 == Next(s3, ProducerStep)
    ensures s4.published == s.published + [b] && s4.consumed == s.consumed && s4.prod.PIdle?
  {
    InvStep(s, Publish(b));
    InvStep(s1, ProducerStep);
    StoreSlot(s2);
  }

  /** In every state of every run a producer that is not in a call can publish, and does so if the ring is
      not full and the consumer leaves it alone meanwhile. */
  lemma {:induction false} PublishAlone(slots: seq<Buf>, acts: seq<Action>, b: Buf)
    requires RingOf(slots)
    requires var s := Exec(Init(slots), acts); s.prod.PIdle? && |s.published| < |s.consumed| + |slots|
    ensures var s := Exec(Init(slots), acts);
            var s' := Exec(Init(slots), acts + [Publish(b)] + [ProducerStep] + [ProducerStep] + [ProducerStep]);
            s'.published == s.published + [b] && s'.consumed == s.consumed && s'.prod.PIdle?
  {
    var r1 := acts + [Publish(b)];
    var r2 := r1 + [ProducerStep];
    var r3 := r2 + [ProducerStep];
    var init := Init(slots);
    RunInv(slots, acts);
    Snoc(init, acts, Publish(b));
    Snoc(init, r1, ProducerStep);
    Snoc(init, r2, ProducerStep);
    Snoc(init, r3, ProducerStep);
    PublishSteps(Exec(init, acts), Exec(init, r1), Exec(init, r2), Exec(init, r3), Exec(init, r3 + [ProducerStep]), b);
  }

  lemma ConsumeSteps(s: State, s1: State, s2: State, s3: State, s4: State)
    requires Inv(s) && s.cons.CIdle? && |s.consumed| < |s.published|
    requires s1 == Next(s, Consume) && s2 == Next(s1, ConsumerStep) && |s2.slots| > 0 && s3 == Next(s2, ConsumerStep)
    requires |s3.slots| > 0 && s4 == Next(s3, ConsumerStep)
    ensures s4.consumed == s.consumed + [s.published[|s.consumed|]] && s4.published == s.published && s4.cons.CIdle?
  {
    InvStep(s, Consume);
    InvStep(s1, ConsumerStep);
    ReadSlot(s2);
    InvStep(s2, ConsumerStep);
  }

  /** The same for the consumer, which gets the oldest buffer if there is one. */
  lemma {:induction false} ConsumeAlone(slots: seq<Buf>, acts: seq<Action>)
    requires RingOf(slots)
    requires var s := Exec(Init(slots), acts); s.cons.CIdle? && |s.consumed| < |s.published|
    ensures var s := Exec(Init(slots), acts);
            var s' := Exec(Init(slots), acts + [Consume] + [ConsumerStep] + [ConsumerStep] + [ConsumerStep]);
            s'.consumed == s.consumed + [s.published[|s.consumed|]] && s'.published == s.published && s'.cons.CIdle?
  {
    var r1 := acts + [Consume];
    var r2 := r1 + [ConsumerStep];
    var r3 := r2 + [ConsumerStep];
    var init := Init(slots);
    RunInv(slots, acts);
    Snoc(init, acts, Consume);
    Snoc(init, r1, ConsumerStep);
    Snoc(init, r2, ConsumerStep);
    Snoc(init, r3, ConsumerStep);
    ConsumeSteps(Exec(init, acts), Exec(init, r1), Exec(init, r2), Exec(init, r3), Exec(init, r3 + [ConsumerStep]));
  }
}
