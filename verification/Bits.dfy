/** Bitwise operators on unbounded naturals, bit by bit, and the few identities
    that the mask-and-select code and the byte packing rely on. */
module Bits {

  function Pow2(n: nat): (r: nat)
    ensures r > 0
  {
    if n == 0 then 1 else 2 * Pow2(n - 1)
  }

  lemma {:induction false} Pow2Add(a: nat, b: nat)
    ensures Pow2(a + b) == Pow2(a) * Pow2(b)
  {
    if a > 0 {
      Pow2Add(a - 1, b);
    }
  }

  function And(a: nat, b: nat): nat {
    if a == 0 || b == 0 then 0
    else (if a % 2 == 1 && b % 2 == 1 then 1 else 0) + 2 * And(a / 2, b / 2)
  }

  function Or(a: nat, b: nat): nat {
    if a == 0 then b
    else if b == 0 then a
    else (if a % 2 == 1 || b % 2 == 1 then 1 else 0) + 2 * Or(a / 2, b / 2)
  }

  function Xor(a: nat, b: nat): nat {
    if a == 0 then b
    else if b == 0 then a
    else (if a % 2 != b % 2 then 1 else 0) + 2 * Xor(a / 2, b / 2)
  }

  /** A mask of n ones keeps every n-bit number. */
  lemma {:induction false} AndOnes(n: nat, b: nat)
    requires b < Pow2(n)
    ensures And(Pow2(n) - 1, b) == b
  {
    if n > 0 {
      AndOnes(n - 1, b / 2);
      assert (Pow2(n) - 1) / 2 == Pow2(n - 1) - 1;
    }
  }

  /** Exclusive or with the same number twice gives back the other one. */
  lemma {:induction false} XorCancel(a: nat, b: nat)
    ensures Xor(a, Xor(a, b)) == b
    decreases a + b
  {
    if a == 0 || b == 0 {
      XorSelf(a);
    } else {
      XorCancel(a / 2, b / 2);
      var x := Xor(a, b);
      assert x / 2 == Xor(a / 2, b / 2) && (x % 2 == 1 <==> a % 2 != b % 2);
      if x == 0 {
        XorZero(a, b);
      }
    }
  }

  lemma {:induction false} XorSelf(a: nat)
    ensures Xor(a, a) == 0
  {
    if a > 0 {
      XorSelf(a / 2);
    }
  }

  lemma {:induction false} XorZero(a: nat, b: nat)
    requires Xor(a, b) == 0
    ensures a == b
  {
    if a > 0 && b > 0 {
      XorZero(a / 2, b / 2);
    }
  }

  /** Or of numbers with no bit in common is their sum: the low one has n bits
      and the high one is shifted left by n. */
  lemma {:induction false} OrShifted(n: nat, low: nat, high: nat)
    requires low < Pow2(n)
    ensures Or(low, high * Pow2(n)) == low + high * Pow2(n)
  {
    if n > 0 {
      OrShifted(n - 1, low / 2, high);
      Doubled(high, Pow2(n - 1));
      OrStep(low, high * Pow2(n - 1));
    }
  }

  lemma {:induction false} Doubled(high: nat, p: nat)
    ensures high * (2 * p) == 2 * (high * p)
  {
  }

  /** Or with an even number works on the halves. */
  lemma {:induction false} OrStep(low: nat, half: nat)
    ensures Or(low, 2 * half) == low % 2 + 2 * Or(low / 2, half)
  {
  }
}
