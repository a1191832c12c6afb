/** The single-producer single-consumer descriptor ring. Head and tail are 64-bit sequence numbers
    that wrap; a slot index is a sequence number modulo the ring size. */
module SpscRing {
  import opened Bits

  const TWO64: int := 0x1_0000_0000_0000_0000

  /** A buffer pointer. */
  type Buf = int

  // ---- Ring sizes --------------------------------------------------------

  /** The test netdev_ring_init applies to a size. */
  predicate AcceptsSize(n: nat) {
    n != 0 && BitAnd(n, n - 1) == 0
  }

  lemma {:induction false} AndSelf(n: nat)
    ensures BitAnd(n, n) == n
  {
    if n != 0 {
      AndSelf(n / 2);
    }
  }

  /** The bit test accepts exactly the powers of two. */
  lemma {:induction false} SizeTest(n: nat)
    ensures AcceptsSize(n) <==> IsPowerOfTwo(n)
  {
    if n > 1 {
      if n % 2 == 0 {
        assert (n - 1) / 2 == n / 2 - 1;
        SizeTest(n / 2);
      } else {
        assert (n - 1) / 2 == n / 2;
        AndSelf(n / 2);
      }
    }
  }

  /** A power of two divides every larger one. */
  lemma {:induction false} PowersDivide(n: nat, m: nat)
    requires IsPowerOfTwo(n) && IsPowerOfTwo(m) && n <= m
    ensures Divides(n, m)
  {
    if n > 1 {
      PowersDivide(n / 2, m / 2);
      var k := (m / 2) / (n / 2);
      assert m / 2 == k * (n / 2);
      assert m == k * n by {
        assert k * n == k * (2 * (n / 2)) == 2 * (k * (n / 2));
      }
      ModUnique(m, k, 0, n);
    }
  }

  /** Every size that init accepts divides the range of the sequence numbers. */
  lemma AcceptedSizesDivide(n: nat)
    requires AcceptsSize(n) && n <= TWO64
    ensures Divides(n, TWO64)
  {
    SizeTest(n);
    PowersMultiply(0x100, 0x100);
    PowersMultiply(0x1_0000, 0x1_0000);
    PowersMultiply(0x1_0000_0000, 0x1_0000_0000);
    PowersDivide(n, TWO64);
  }

  // ---- Arithmetic of wrapped sequence numbers ----------------------------

  predicate Divides(n: int, m: int)
    requires n > 0
  {
    m % n == 0
  }

  /** The slot of the x-th buffer in a ring of n slots: x modulo n. */
  function Index(x: nat, n: nat): (k: nat)
    requires n > 0
    ensures k < n
    decreases x
  {
    if x < n then x else Index(x - n, n)
  }

  lemma {:induction false} IndexIsRemainder(x: nat, n: nat)
    requires n > 0
    ensures x % n == Index(x, n)
    decreases x
  {
    if x < n {
      ModUnique(x, 0, x, n);
    } else {
      IndexIsRemainder(x - n, n);
      ModAdd(x - n, 1, n);
    }
  }

  /** Wrapping a sequence number does not change its slot, because the size divides 2^64. */
  lemma {:induction false} SlotOfWrapped(x: nat, n: nat)
    requires 0 < n && Divides(n, TWO64)
    ensures (x % TWO64) % n == Index(x, n)
  {
    var q, r, k := x / TWO64, x % TWO64, TWO64 / n;
    assert TWO64 == k * n;
    assert x == q * TWO64 + r;
    assert q * TWO64 == (q * k) * n by {
      assert q * (k * n) == (q * k) * n;
    }
    ModAdd(r, q * k, n);
    IndexIsRemainder(x, n);
  }

  lemma ModAdd(r: int, m: int, n: int)
    requires n > 0
    ensures (m * n + r) % n == r % n
  {
    var q := r / n;
    assert m * n + r == (m + q) * n + r % n by {
      assert (m + q) * n == m * n + q * n;
    }
    ModUnique(m * n + r, m + q, r % n, n);
  }

  lemma ModUnique(x: int, q: int, r: int, n: int)
    requires n > 0 && 0 <= r < n && x == q * n + r
    ensures x % n == r
  {
    var d := x / n - q;
    assert x == (x / n) * n + x % n;
    assert d * n == r - x % n by {
      assert d * n == (x / n) * n - q * n;
    }
    assert d >= 1 ==> d * n >= n;
    assert d <= -1 ==> d * n <= -n;
  }

  /** Sequence numbers less than n apart have different slots. */
  lemma {:induction false} NearSlotsDiffer(a: nat, b: nat, n: nat)
    requires a < b < a + n
    ensures Index(a, n) != Index(b, n)
    decreases a
  {
    if a >= n {
      NearSlotsDiffer(a - n, b - n, n);
    } else if b >= n {
      assert Index(b, n) == b - n;
    }
  }

  /** 64-bit subtraction of wrapped numbers gives the true distance when it is below 2^64. */
  lemma WrappedDistance(a: nat, b: nat)
    requires a <= b < a + TWO64
    ensures (b % TWO64 - a % TWO64) % TWO64 == b - a
  {
  }

  /** Size of a slot. */
  const POINTER_SIZE: nat := 4

  /** 2^30 is an accepted size. */
  lemma WrapIsReached()
    ensures IsPowerOfTwo(0x4000_0000) && AcceptsSize(0x4000_0000)
  {
    PowersMultiply(0x80, 0x100);
    PowersMultiply(0x8000, 0x8000);
    SizeTest(0x4000_0000);
  }

  /** The 32-bit product of the slot size and an accepted ring size is right below 2^30 slots and zero
      from there on. */
  lemma BytesWrap(size: nat)
    requires IsPowerOfTwo(size) && size < 0x1_0000_0000
    ensures POINTER_SIZE * size % 0x1_0000_0000 == if size < 0x4000_0000 then POINTER_SIZE * size else 0
  {
    if size >= 0x4000_0000 {
      WrapIsReached();
      PowersDivide(0x4000_0000, size);
      assert size == 0x4000_0000 * (size / 0x4000_0000);
    }
  }

  // ---- The ring used by one task -----------------------------------------

  /** The buffers numbered `from` to `to`, as the slots hold them. */
  function Live(slots: seq<Buf>, from: nat, to: nat): seq<Buf>
    requires |slots| > 0 && from <= to
  {
    seq(to - from, i requires 0 <= i < to - from => slots[Index(from + i, |slots|)])
  }

  lemma LivePush(slots: seq<Buf>, from: nat, to: nat, b: Buf)
    requires from <= to < from + |slots|
    ensures Live(slots[Index(to, |slots|) := b], from, to + 1) == Live(slots, from, to) + [b]
  {
    var before, after := Live(slots, from, to), Live(slots[Index(to, |slots|) := b], from, to + 1);
    forall i | 0 <= i < |before|
      ensures after[i] == before[i]
    {
      NearSlotsDiffer(from + i, to, |slots|);
    }
    assert after == before + [b];
  }

  lemma LivePop(slots: seq<Buf>, from: nat, to: nat)
    requires |slots| > 0 && from < to
    ensures Live(slots, from, to) == [slots[Index(from, |slots|)]] + Live(slots, from + 1, to)
  {
  }

  class NetDevRing {
    var slots: array<Buf>
    var ringSize: nat
    var head: int              // producer's sequence number
    var tail: int              // consumer's sequence number
    ghost var published: nat   // how many buffers were ever published and consumed
    ghost var consumed: nat

    ghost predicate Valid()
      reads this
    {
      && slots.Length == ringSize && 0 < ringSize < 0x1_0000_0000 && Divides(ringSize, TWO64)
      && head == published % TWO64 && tail == consumed % TWO64
      && consumed <= published <= consumed + ringSize
    }

    /** The published buffers not yet consumed, oldest first. */
    ghost function Contents(): seq<Buf>
      requires Valid()
      reads this, slots
    {
      Live(slots[..], consumed, published)
    }

    /** A ring without slots, not yet set up. */
    constructor ()
    {
      slots := new Buf[0];
      ringSize, head, tail, published, consumed := 0, 0, 0, 0, 0;
    }

    /** Sets the ring up; `memory` says whether the slots can be allocated. A size that is not a power
        of two is refused and nothing changes; without memory the ring is left without slots. The number
        of bytes asked for is computed in 32 bits, so from 2^30 slots up none are allocated and the ring
        that init reports as set up is not usable. */
    method Init(size: nat, memory: bool) returns (ok: bool)
      requires size < 0x1_0000_0000
      modifies this
      ensures ok <==> IsPowerOfTwo(size) && memory
      ensures ok ==> ringSize == size && fresh(slots) && (Valid() <==> size < 0x4000_0000)
      ensures ok && size < 0x4000_0000 ==> Contents() == []
      ensures ok && size >= 0x4000_0000 ==> slots.Length == 0
      ensures !IsPowerOfTwo(size) ==> unchanged(this)
      ensures IsPowerOfTwo(size) && !memory ==>
                slots.Length == 0 && unchanged(`ringSize) && unchanged(`head) && unchanged(`tail)
    {
      SizeTest(size);
      if size == 0 || BitAnd(size, size - 1) != 0 {
        return false;
      }
      AcceptedSizesDivide(size);
      BytesWrap(size);
      var bytes := POINTER_SIZE * size % 0x1_0000_0000;
      slots := new Buf[if memory then bytes / POINTER_SIZE else 0];
      if !memory {
        return false;
      }
      ringSize := size;
      head, tail, published, consumed := 0, 0, 0, 0;
      return true;
    }

    /** Appends a buffer unless ringSize buffers are outstanding. */
    method Publish(b: Buf) returns (ok: bool)
      requires Valid()
      modifies slots, `head, `published
      ensures Valid() && ok == (|old(Contents())| < ringSize)
      ensures Contents() == if ok then old(Contents()) + [b] else old(Contents())
    {
      WrappedDistance(consumed, published);
      if (head - tail) % TWO64 >= ringSize {
        return false;
      }
      SlotOfWrapped(published, ringSize);
      LivePush(slots[..], consumed, published, b);
      ghost var ss := slots[..];
      slots[head % ringSize] := b;
      assert slots[..] == ss[head % ringSize := b];
      WrappedNext(published);
      head := (head + 1) % TWO64;
      published := published + 1;
      return true;
    }

    /** Takes the oldest buffer, if there is one. */
    method Consume() returns (ok: bool, out: Buf)
      requires Valid()
      modifies `tail, `consumed
      ensures Valid() && ok == (old(Contents()) != [])
      ensures ok ==> old(Contents()) == [out] + Contents()
      ensures !ok ==> Contents() == old(Contents())
    {
      WrappedDistance(consumed, published);
      if tail == head {
        return false, 0;
      }
      SlotOfWrapped(consumed, ringSize);
      LivePop(slots[..], consumed, published);
      out := slots[tail % ringSize];
      WrappedNext(consumed);
      tail := (tail + 1) % TWO64;
      consumed := consumed + 1;
      ok := true;
    }
  }

  lemma WrappedNext(x: nat)
    ensures (x % TWO64 + 1) % TWO64 == (x + 1) % TWO64
  {
  }
}
