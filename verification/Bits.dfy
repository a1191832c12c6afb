/** Unsigned words as numbers, with their binary digits. */
module Bits {
  const MODULUS: nat := 0x1_0000_0000

  /** The i-th binary digit is one. */
  predicate Digit(a: nat, i: nat) {
    if i == 0 then a % 2 == 1 else Digit(a / 2, i - 1)
  }

  /** Bitwise conjunction. */
  function BitAnd(a: nat, b: nat): (r: nat)
    ensures r <= a
  {
    if a == 0 || b == 0 then 0 else (a % 2) * (b % 2) + 2 * BitAnd(a / 2, b / 2)
  }

  /** Bitwise disjunction. */
  function BitOr(a: nat, b: nat): (r: nat) {
    if a == 0 then b else if b == 0 then a
    else (if a % 2 == 1 || b % 2 == 1 then 1 else 0) + 2 * BitOr(a / 2, b / 2)
  }

  lemma {:induction false} ZeroDigits(i: nat)
    ensures !Digit(0, i)
  {
    if i > 0 {
      ZeroDigits(i - 1);
    }
  }

  lemma {:induction false} AndDigits(a: nat, b: nat, i: nat)
    ensures Digit(BitAnd(a, b), i) <==> Digit(a, i) && Digit(b, i)
  {
    ZeroDigits(i);
    if a != 0 && b != 0 {
      assert BitAnd(a, b) / 2 == BitAnd(a / 2, b / 2) && (BitAnd(a, b) % 2 == 1 <==> a % 2 == 1 && b % 2 == 1);
      if i > 0 {
        AndDigits(a / 2, b / 2, i - 1);
      }
    }
  }

  lemma {:induction false} OrDigits(a: nat, b: nat, i: nat)
    ensures Digit(BitOr(a, b), i) <==> Digit(a, i) || Digit(b, i)
  {
    ZeroDigits(i);
    if a != 0 && b != 0 {
      assert BitOr(a, b) / 2 == BitOr(a / 2, b / 2) && (BitOr(a, b) % 2 == 1 <==> a % 2 == 1 || b % 2 == 1);
      if i > 0 {
        OrDigits(a / 2, b / 2, i - 1);
      }
    }
  }

  /** Numbers with the same digits are equal. */
  lemma {:induction false} DigitsDetermine(a: nat, b: nat)
    requires forall i: nat :: Digit(a, i) <==> Digit(b, i)
    ensures a == b
    decreases a + b
  {
    assert Digit(a, 0) <==> Digit(b, 0);
    if a + b > 0 {
      forall i: nat
        ensures Digit(a / 2, i) <==> Digit(b / 2, i)
      {
        assert Digit(a, i + 1) <==> Digit(b, i + 1);
      }
      DigitsDetermine(a / 2, b / 2);
    }
  }

  /** n is 2^k for some k. */
  predicate IsPowerOfTwo(n: nat) {
    n == 1 || (n > 1 && n % 2 == 0 && IsPowerOfTwo(n / 2))
  }

  /** A disjunction needs no more places than its operands. */
  lemma {:induction false} OrBelow(a: nat, b: nat, p: nat)
    requires IsPowerOfTwo(p) && a < p && b < p
    ensures BitOr(a, b) < p
  {
    if a != 0 && b != 0 {
      OrBelow(a / 2, b / 2, p / 2);
    }
  }

  lemma {:induction false} PowersMultiply(a: nat, b: nat)
    requires IsPowerOfTwo(a) && IsPowerOfTwo(b)
    ensures IsPowerOfTwo(a * b)
  {
    if a > 1 {
      PowersMultiply(a / 2, b);
      assert a * b == 2 * ((a / 2) * b) by {
        assert a == 2 * (a / 2);
      }
    }
  }

  lemma ModulusIsPower()
    ensures IsPowerOfTwo(MODULUS)
  {
    PowersMultiply(0x100, 0x100);
    PowersMultiply(0x1_0000, 0x1_0000);
  }
}
