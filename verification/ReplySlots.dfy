/** The table of per-task reply ports in the client library. */
module ReplySlots {
  import opened Wrappers

  const SLOT_MAX: nat := 16

  type Task = int
  type PortId = int

  datatype Slot = Unused | Taken(owner: Task, port: PortId)

  predicate HasSlot(slots: seq<Slot>, t: Task, p: PortId) {
    Taken(t, p) in slots
  }

  /** No task has two slots and no port is in two slots. */
  predicate SlotsDistinct(slots: seq<Slot>) {
    forall i, j :: 0 <= i < j < |slots| && slots[i].Taken? && slots[j].Taken? ==>
      slots[i].owner != slots[j].owner && slots[i].port != slots[j].port
  }

  /** The first slot of `t` from `i` up, or -1. */
  function OwnerFrom(slots: seq<Slot>, t: Task, i: nat): (k: int)
    requires i <= |slots|
    ensures k == -1 || (i <= k < |slots| && slots[k].Taken? && slots[k].owner == t)
    ensures k == -1 ==> forall j :: i <= j < |slots| ==> !(slots[j].Taken? && slots[j].owner == t)
    decreases |slots| - i
  {
    if i == |slots| then -1 else if slots[i].Taken? && slots[i].owner == t then i else OwnerFrom(slots, t, i + 1)
  }

  /** The first unused slot from `i` up, or -1. */
  function UnusedFrom(slots: seq<Slot>, i: nat): (k: int)
    requires i <= |slots|
    ensures k == -1 || (i <= k < |slots| && slots[k].Unused?)
    ensures k == -1 ==> forall j :: i <= j < |slots| ==> slots[j].Taken?
    ensures forall j :: i <= j < k ==> slots[j].Taken?
    decreases |slots| - i
  {
    if i == |slots| then -1 else if slots[i].Unused? then i else UnusedFrom(slots, i + 1)
  }

  /** The caller's reply port, allocated on first use; `alloc` is what the port allocation returns,
      None when it fails. No port is the answer when allocation fails or all slots are taken. */
  function Ensure(slots: seq<Slot>, me: Task, alloc: Option<PortId>): (seq<Slot>, Option<PortId>) {
    var k := OwnerFrom(slots, me, 0);
    if k >= 0 then (slots, Some(slots[k].port))
    else
      var i := UnusedFrom(slots, 0);
      if i < 0 || alloc.None? then (slots, None) else (slots[i := Taken(me, alloc.value)], Some(alloc.value))
  }

  predicate OwnsSlot(slots: seq<Slot>, t: Task) {
    exists k :: 0 <= k < |slots| && slots[k].Taken? && slots[k].owner == t
  }

  predicate SomeUnused(slots: seq<Slot>) {
    exists k :: 0 <= k < |slots| && slots[k].Unused?
  }

  /** A task gets a port exactly when it owns a slot, or a port can be allocated and some slot is unused;
      a new port goes into the first unused slot, and otherwise no slot changes. */
  lemma EnsureExact(slots: seq<Slot>, me: Task, alloc: Option<PortId>)
    ensures var (slots', p) := Ensure(slots, me, alloc);
            && (p.Some? <==> OwnsSlot(slots, me) || (alloc.Some? && SomeUnused(slots)))
            && (OwnsSlot(slots, me) && p.Some? ==> slots' == slots && HasSlot(slots, me, p.value))
            && (!OwnsSlot(slots, me) && p.Some? ==> p == alloc && exists k ::
                  && 0 <= k < |slots| && slots[k].Unused? && (forall j :: 0 <= j < k ==> slots[j].Taken?)
                  && slots' == slots[k := Taken(me, p.value)])
            && (p.None? ==> slots' == slots)
  {
    var k := OwnerFrom(slots, me, 0);
    if k >= 0 {
      assert slots[k] == Taken(me, slots[k].port);
    } else if UnusedFrom(slots, 0) >= 0 {
      assert slots[UnusedFrom(slots, 0)].Unused?;
    }
  }

  /** The port handed out belongs to the caller and to nobody else, and stays the same for ever. */
  lemma EnsureExclusive(slots: seq<Slot>, me: Task, alloc: Option<PortId>)
    requires SlotsDistinct(slots)
    requires alloc.Some? ==> forall t :: !HasSlot(slots, t, alloc.value)
    ensures var (slots', p) := Ensure(slots, me, alloc);
            && |slots'| == |slots| && SlotsDistinct(slots')
            && (p.Some? ==> HasSlot(slots', me, p.value))
            && (forall t, q :: HasSlot(slots, t, q) ==> HasSlot(slots', t, q))
            && (forall t, q :: HasSlot(slots', t, q) ==>
                  HasSlot(slots, t, q) || (t == me && alloc == Some(q) && p == Some(q)))
            && (p.Some? ==> forall again :: Ensure(slots', me, again) == (slots', p))
  {
    var (slots', p) := Ensure(slots, me, alloc);
    if OwnerFrom(slots, me, 0) < 0 && p.Some? {
      var i := UnusedFrom(slots, 0);
      assert slots'[i] == Taken(me, alloc.value);
      forall t, q | HasSlot(slots, t, q)
        ensures HasSlot(slots', t, q)
      {
        var j :| 0 <= j < |slots| && slots[j] == Taken(t, q);
        assert slots'[j] == Taken(t, q);
      }
      forall j | 0 <= j < |slots'| && j != i && slots'[j].Taken?
        ensures slots'[j].owner != me && slots'[j].port != alloc.value
      {
        assert HasSlot(slots, slots[j].owner, slots[j].port);
      }
      assert OwnerFrom(slots', me, 0) == i;
    }
  }

  lemma SlotOwnerUnique(slots: seq<Slot>, t: Task, u: Task, p: PortId)
    requires SlotsDistinct(slots) && HasSlot(slots, t, p) && HasSlot(slots, u, p)
    ensures t == u
  {
  }

  /** The table as the library keeps it, guarded by a semaphore that makes each call atomic. */
  class ReplyTable {
    const slots: array<Slot>

    constructor ()
      ensures slots.Length == SLOT_MAX && slots[..] == seq(SLOT_MAX, _ => Unused) && fresh(slots)
    {
      slots := new Slot[SLOT_MAX](_ => Unused);
    }

    method EnsureReplyPort(me: Task, alloc: Option<PortId>) returns (p: Option<PortId>)
      requires slots.Length == SLOT_MAX
      modifies slots
      ensures (slots[..], p) == Ensure(old(slots[..]), me, alloc)
    {
      for i := 0 to SLOT_MAX
        invariant slots[..] == old(slots[..])
        invariant OwnerFrom(slots[..], me, 0) == OwnerFrom(slots[..], me, i)
      {
        if slots[i].Taken? && slots[i].owner == me {
          return Some(slots[i].port);
        }
      }
      for i := 0 to SLOT_MAX
        invariant slots[..] == old(slots[..])
        invariant UnusedFrom(slots[..], 0) == UnusedFrom(slots[..], i)
      {
        if slots[i].Unused? {
          if alloc.None? {
            return None;
          }
          slots[i] := Taken(me, alloc.value);
          assert slots[..] == old(slots[..])[i := Taken(me, alloc.value)];
          return alloc;
        }
      }
      return None;
    }
  }
}
