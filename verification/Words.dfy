/** Word-level helpers: byte swapping and population count. */
module Words {
  // ---- Byte swap ---------------------------------------------------------

  function Bswap32(v: bv32): bv32 {
    ((v & 0xFF000000) >> 24) | ((v & 0x00FF0000) >> 8) | ((v & 0x0000FF00) << 8) | ((v & 0x000000FF) << 24)
  }

  function Bswap64(v: bv64): bv64 {
    ((Bswap32((v & 0xFFFFFFFF) as bv32) as bv64) << 32) | (Bswap32((v >> 32) as bv32) as bv64)
  }

  /** The bytes of a word, most significant first. */
  function Bytes32(v: bv32): seq<bv32> {
    [v >> 24, (v >> 16) & 0xFF, (v >> 8) & 0xFF, v & 0xFF]
  }

  function Low(v: bv64): bv32 {
    (v & 0xFFFFFFFF) as bv32
  }

  function High(v: bv64): bv32 {
    (v >> 32) as bv32
  }

  function Bytes64(v: bv64): seq<bv32> {
    Bytes32(High(v)) + Bytes32(Low(v))
  }

  function Reversed<T>(s: seq<T>): seq<T> {
    seq(|s|, i requires 0 <= i < |s| => s[|s| - 1 - i])
  }

  /** bswap32 reverses the bytes of a word, and undoes itself. */
  lemma Bswap32Reverses(v: bv32)
    ensures Bytes32(Bswap32(v)) == Reversed(Bytes32(v))
    ensures Bswap32(Bswap32(v)) == v
  {
  }

  lemma SwapsHalves(v: bv64)
    ensures Low(Bswap64(v)) == Bswap32(High(v)) && High(Bswap64(v)) == Bswap32(Low(v))
  {
  }

  lemma HalvesDetermine(v: bv64, w: bv64)
    requires Low(v) == Low(w) && High(v) == High(w)
    ensures v == w
  {
  }

  lemma ReversedConcat<T>(a: seq<T>, b: seq<T>)
    ensures Reversed(a + b) == Reversed(b) + Reversed(a)
  {
  }

  /** bswap64 reverses the bytes of a double word, and undoes itself, because bswap32 does. */
  lemma Bswap64Reverses(v: bv64)
    ensures Bytes64(Bswap64(v)) == Reversed(Bytes64(v))
    ensures Bswap64(Bswap64(v)) == v
  {
    SwapsHalves(v);
    Bswap32Reverses(Low(v));
    Bswap32Reverses(High(v));
    ReversedConcat(Bytes32(High(v)), Bytes32(Low(v)));
    SwapsHalves(Bswap64(v));
    HalvesDetermine(Bswap64(Bswap64(v)), v);
  }

  // ---- Population count --------------------------------------------------

  // The three reassignments of the argument and the final gathering, one function each.
  function Pairs(v: bv32): bv32 {
    v - ((v >> 1) & 0x55555555)
  }

  function Nibbles(v: bv32): bv32 {
    (v & 0x33333333) + ((v >> 2) & 0x33333333)
  }

  function Octets(v: bv32): bv32 {
    (v + (v >> 4)) & 0x0F0F0F0F
  }

  function Gather(v: bv32): bv32 {
    (v * 0x01010101) >> 24
  }

  /** One count per byte. */
  function ByteCounts(v: bv32): bv32 {
    Octets(Nibbles(Pairs(v)))
  }

  function PopCount32(v: bv32): bv32 {
    Gather(ByteCounts(v))
  }

  /** The plain count: add the low bit, shift, repeat. */
  function CountFrom(v: bv32, n: nat, acc: bv32): bv32 {
    if n == 0 then acc else CountFrom(v >> 1, n - 1, acc + (v & 1))
  }

  // How many of the lowest two, four and eight bits are set.
  function TwoBits(x: bv32): bv32 {
    (x & 1) + ((x >> 1) & 1)
  }

  function FourBits(x: bv32): bv32 {
    TwoBits(x) + TwoBits(x >> 2)
  }

  function BitSum(x: bv32): bv32 {
    FourBits(x) + FourBits(x >> 4)
  }

  lemma CountsByte0(v: bv32, c: bv32, s: bv32)
    requires c == ByteCounts(v) && s == BitSum(v)
    ensures c & 0xFF == s
  {
  }

  lemma CountsByte1(v: bv32, c: bv32, b: bv32, s: bv32)
    requires c == ByteCounts(v) && b == v >> 8 && s == BitSum(b)
    ensures (c >> 8) & 0xFF == s
  {
  }

  lemma CountsByte2(v: bv32, c: bv32, b: bv32, s: bv32)
    requires c == ByteCounts(v) && b == v >> 16 && s == BitSum(b)
    ensures (c >> 16) & 0xFF == s
  {
  }

  lemma CountsByte3(v: bv32, c: bv32, b: bv32, s: bv32)
    requires c == ByteCounts(v) && b == v >> 24 && s == BitSum(b)
    ensures c >> 24 == s
  {
  }

  lemma CountsSmall(v: bv32)
    ensures ByteCounts(v) & 0x0F0F0F0F == ByteCounts(v)
  {
  }

  function Plus(x: bv32, y: bv32): bv32 {
    x + y
  }

  /** `a4` is the sum of the four numbers. */
  predicate AddsUp(s0: bv32, s1: bv32, s2: bv32, s3: bv32, a2: bv32, a3: bv32, a4: bv32) {
    a2 == Plus(s0, s1) && a3 == Plus(a2, s2) && a4 == Plus(a3, s3)
  }

  lemma Regroup(x: bv32, y: bv32, z: bv32)
    requires x & 0x1F == x && y & 0x0F == y && z & 0x0F == z
    ensures Plus(x, Plus(y, z)) == Plus(Plus(x, y), z)
  {
  }

  /** Each byte of a word with small bytes added to the byte below it; nothing carries. */
  lemma AddNeighbours(c: bv32, p: bv32, s0: bv32, s1: bv32, s2: bv32, s3: bv32)
    requires c & 0x0F0F0F0F == c && p == c + (c << 8)
    requires c & 0xFF == s0 && (c >> 8) & 0xFF == s1 && (c >> 16) & 0xFF == s2 && c >> 24 == s3
    ensures p & 0x1F1F1F1F == p && (p >> 8) & 0xFF == Plus(s0, s1) && p >> 24 == Plus(s2, s3)
    ensures Plus(s0, s1) & 0x1F == Plus(s0, s1) && s2 & 0x0F == s2 && s3 & 0x0F == s3
  {
  }

  lemma AddHalves(p: bv32, low: bv32, high: bv32)
    requires p & 0x1F1F1F1F == p && (p >> 8) & 0xFF == low && p >> 24 == high
    ensures (p + (p << 16)) >> 24 == Plus(low, high)
  {
  }

  /** The multiplication adds up the word and its three shifts by whole bytes. */
  lemma GatherShifts(c: bv32, p: bv32)
    requires c & 0x0F0F0F0F == c && p == c + (c << 8)
    ensures Gather(c) == (p + (p << 16)) >> 24
  {
  }

  /** The multiplication adds up the four bytes, none of which overflows. */
  lemma GatherSums(c: bv32, s0: bv32, s1: bv32, s2: bv32, s3: bv32, a2: bv32, a3: bv32, a4: bv32)
    requires c & 0x0F0F0F0F == c
    requires c & 0xFF == s0 && (c >> 8) & 0xFF == s1 && (c >> 16) & 0xFF == s2 && c >> 24 == s3
    requires AddsUp(s0, s1, s2, s3, a2, a3, a4)
    ensures Gather(c) == a4
  {
    var p := c + (c << 8);
    GatherShifts(c, p);
    AddNeighbours(c, p, s0, s1, s2, s3);
    AddHalves(p, Plus(s0, s1), Plus(s2, s3));
    Regroup(a2, s2, s3);
  }

  /** `b1` to `b4` are `v` shifted by one to four bytes, `s0` to `s3` the bit counts of its bytes. */
  predicate ByBytes(v: bv32, b1: bv32, b2: bv32, b3: bv32, b4: bv32, s0: bv32, s1: bv32, s2: bv32, s3: bv32) {
    && b1 == v >> 8 && b2 == v >> 16 && b3 == v >> 24 && b4 == b3 >> 8
    && s0 == BitSum(v) && s1 == BitSum(b1) && s2 == BitSum(b2) && s3 == BitSum(b3)
  }

  lemma ShiftsCompose(v: bv32, b1: bv32, b2: bv32, b3: bv32)
    requires b1 == v >> 8 && b2 == v >> 16 && b3 == v >> 24
    ensures b2 == b1 >> 8 && b3 == b2 >> 8
  {
  }

  lemma SumsBytes(v: bv32, c: bv32, b1: bv32, b2: bv32, b3: bv32, b4: bv32,
                  s0: bv32, s1: bv32, s2: bv32, s3: bv32, a2: bv32, a3: bv32, a4: bv32)
    requires c == ByteCounts(v) && ByBytes(v, b1, b2, b3, b4, s0, s1, s2, s3) && AddsUp(s0, s1, s2, s3, a2, a3, a4)
    ensures Gather(c) == a4
  {
    CountsByte0(v, c, s0);
    CountsByte1(v, c, b1, s1);
    CountsByte2(v, c, b2, s2);
    CountsByte3(v, c, b3, s3);
    CountsSmall(v);
    GatherSums(c, s0, s1, s2, s3, a2, a3, a4);
  }

  lemma OneStep(v: bv32, n: nat, acc: bv32, v1: bv32, acc1: bv32)
    requires v1 == v >> 1 && acc1 == acc + (v & 1)
    ensures CountFrom(v, n + 1, acc) == CountFrom(v1, n, acc1)
  {
  }

  lemma SecondBit(v: bv32, acc: bv32, v1: bv32, acc1: bv32, v2: bv32, acc2: bv32)
    requires v1 == v >> 1 && acc1 == acc + (v & 1) && v2 == v >> 2 && acc2 == acc + TwoBits(v)
    ensures v2 == v1 >> 1 && acc2 == acc1 + (v1 & 1)
  {
  }

  lemma TwoSteps(v: bv32, n: nat, acc: bv32, v2: bv32, acc2: bv32)
    requires v2 == v >> 2 && acc2 == acc + TwoBits(v)
    ensures CountFrom(v, n + 2, acc) == CountFrom(v2, n, acc2)
  {
    var v1, acc1 := v >> 1, acc + (v & 1);
    SecondBit(v, acc, v1, acc1, v2, acc2);
    OneStep(v, n + 1, acc, v1, acc1);
    OneStep(v1, n, acc1, v2, acc2);
  }

  lemma FourSteps(v: bv32, n: nat, acc: bv32, v4: bv32, acc4: bv32)
    requires v4 == v >> 4 && acc4 == acc + FourBits(v)
    ensures CountFrom(v, n + 4, acc) == CountFrom(v4, n, acc4)
  {
    var v2, acc2 := v >> 2, acc + TwoBits(v);
    TwoSteps(v, n + 2, acc, v2, acc2);
    TwoSteps(v2, n, acc2, v4, acc4);
  }

  lemma EightSteps(v: bv32, n: nat, acc: bv32, v8: bv32, s: bv32, acc8: bv32)
    requires v8 == v >> 8 && s == BitSum(v) && acc8 == Plus(acc, s)
    ensures CountFrom(v, n + 8, acc) == CountFrom(v8, n, acc8)
  {
    var v4, acc4 := v >> 4, acc + FourBits(v);
    FourSteps(v, n + 4, acc, v4, acc4);
    FourSteps(v4, n, acc4, v8, acc8);
  }

  lemma FromZero(s: bv32)
    ensures Plus(0, s) == s
  {
  }

  lemma CountsAll(v: bv32, b1: bv32, b2: bv32, b3: bv32, b4: bv32,
                  s0: bv32, s1: bv32, s2: bv32, s3: bv32, a2: bv32, a3: bv32, a4: bv32)
    requires ByBytes(v, b1, b2, b3, b4, s0, s1, s2, s3) && AddsUp(s0, s1, s2, s3, a2, a3, a4)
    ensures CountFrom(v, 32, 0) == a4
  {
    ShiftsCompose(v, b1, b2, b3);
    FromZero(s0);
    EightSteps(v, 24, 0, b1, s0, s0);
    EightSteps(b1, 16, s0, b2, s1, a2);
    EightSteps(b2, 8, a2, b3, s2, a3);
    EightSteps(b3, 0, a3, b4, s3, a4);
  }

  lemma CountsAgree(v: bv32, c: bv32, b1: bv32, b2: bv32, b3: bv32, b4: bv32,
                    s0: bv32, s1: bv32, s2: bv32, s3: bv32, a2: bv32, a3: bv32, a4: bv32)
    requires c == ByteCounts(v) && ByBytes(v, b1, b2, b3, b4, s0, s1, s2, s3) && AddsUp(s0, s1, s2, s3, a2, a3, a4)
    ensures Gather(c) == CountFrom(v, 32, 0)
  {
    SumsBytes(v, c, b1, b2, b3, b4, s0, s1, s2, s3, a2, a3, a4);
    CountsAll(v, b1, b2, b3, b4, s0, s1, s2, s3, a2, a3, a4);
  }

  /** popcount32 is the plain count of one bits, for every word. */
  lemma PopCountCorrect(v: bv32)
    ensures PopCount32(v) == CountFrom(v, 32, 0)
  {
    var b1, b2, b3 := v >> 8, v >> 16, v >> 24;
    var s0, s1, s2, s3 := BitSum(v), BitSum(b1), BitSum(b2), BitSum(b3);
    var a2 := Plus(s0, s1);
    var a3 := Plus(a2, s2);
    CountsAgree(v, ByteCounts(v), b1, b2, b3, b3 >> 8, s0, s1, s2, s3, a2, a3, Plus(a3, s3));
  }
}
