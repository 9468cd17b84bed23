/** Laws of the integers mod p that the field code is meant to obey: inverses, the
    Legendre symbol, and Euler's criterion. Two number-theoretic facts about the
    modulus are named hypotheses: Fermat's little theorem and that 2 is no square. */
module FieldLaws {
  import opened Field

  /** a and b leave the same remainder. */
  ghost predicate Cong(a: int, b: int, p: int)
    requires p > 0
  {
    a % p == b % p
  }

  ghost predicate FermatAt(x: int, p: int)
    requires p > 1
  {
    Pow(x, p - 1) % p == 1
  }

  ghost predicate Fermat(p: int)
    requires p > 1
  {
    forall x :: 0 < x < p ==> FermatAt(x, p)
  }

  ghost predicate TwoIsNoSquare(p: int)
    requires p > 2
  {
    Pow(2, (p - 1) / 2) % p == p - 1
  }

  // ----- congruences -----

  lemma {:induction false} CongMul(a: int, b: int, c: int, d: int, p: int)
    requires p > 0 && Cong(a, b, p) && Cong(c, d, p)
    ensures Cong(a * c, b * d, p)
  {
    MulResidues(a, c, p);
    MulResidues(b, d, p);
  }

  lemma {:induction false} CongByMultiple(a: int, b: int, k: int, p: int)
    requires p > 0 && a == b + p * k
    ensures Cong(a, b, p)
  {
    AddMultiple(b, k, p);
  }

  lemma {:induction false} CongGivesMultiple(a: int, b: int, p: int) returns (k: int)
    requires p > 0 && Cong(a, b, p)
    ensures a == b + p * k
  {
    k := a / p - b / p;
    Distribute(p, a / p, -(b / p));
  }

  lemma {:induction false} CongAdd(a: int, b: int, c: int, d: int, p: int)
    requires p > 0 && Cong(a, b, p) && Cong(c, d, p)
    ensures Cong(a + c, b + d, p)
  {
    var k := CongGivesMultiple(a, b, p);
    var l := CongGivesMultiple(c, d, p);
    Distribute(p, k, l);
    CongByMultiple(a + c, b + d, k + l, p);
  }

  lemma {:induction false} CongSub(a: int, b: int, c: int, d: int, p: int)
    requires p > 0 && Cong(a, b, p) && Cong(c, d, p)
    ensures Cong(a - c, b - d, p)
  {
    CongMul(-1, -1, c, d, p);
    CongAdd(a, b, -c, -d, p);
  }

  lemma {:induction false} CongMod(a: int, p: int)
    requires p > 0
    ensures Cong(a % p, a, p)
  {
    ModTwice(a, p);
  }

  // ----- powers -----

  lemma {:induction false} CongPow(a: int, b: int, e: nat, p: int)
    requires p > 0 && Cong(a, b, p)
    ensures Cong(Pow(a, e), Pow(b, e), p)
  {
    if e > 0 {
      CongPow(a, b, e - 1, p);
      CongMul(a, b, Pow(a, e - 1), Pow(b, e - 1), p);
    }
  }

  lemma {:induction false} PowOfProduct(a: int, b: int, e: nat)
    ensures Pow(a * b, e) == Pow(a, e) * Pow(b, e)
  {
    if e > 0 {
      PowOfProduct(a, b, e - 1);
      Swap(a, b, Pow(a, e - 1), Pow(b, e - 1));
    }
  }

  lemma {:induction false} Swap(a: int, b: int, c: int, d: int)
    ensures (a * b) * (c * d) == (a * c) * (b * d)
  {
    assert (a * b) * (c * d) == a * (b * (c * d));
    assert b * (c * d) == c * (b * d);
    assert a * (c * (b * d)) == (a * c) * (b * d);
  }

  lemma {:induction false} PowOfZero(e: nat)
    ensures Pow(0, e) == if e == 0 then 1 else 0
  {
  }

  lemma {:induction false} PowOfOne(e: nat)
    ensures Pow(1, e) == 1
  {
    if e > 0 {
      PowOfOne(e - 1);
    }
  }

  lemma {:induction false} PowTwice(a: int, e: nat)
    ensures Pow(a, 2 * e) == Pow(a, e) * Pow(a, e)
  {
    PowAdd(a, e, e);
  }

  // ----- inverses -----

  lemma {:induction false} FermatAnywhere(x: int, p: int)
    requires p > 1 && Fermat(p) && x % p != 0
    ensures Cong(Pow(x, p - 1), 1, p)
  {
    CongMod(x, p);
    CongPow(x % p, x, p - 1, p);
    assert FermatAt(x % p, p);
    UniqueRemainder(1, 0, 1, p);
  }

  /** x * x^(p-2) = 1 for x nonzero, and 0^(p-2) = 0. */
  lemma {:induction false} Inverse(x: int, p: int)
    requires p > 2 && Fermat(p)
    ensures x % p != 0 ==> (x * (Pow(x, p - 2) % p)) % p == 1
    ensures x % p == 0 ==> Pow(x, p - 2) % p == 0
  {
    if x % p != 0 {
      FermatAnywhere(x, p);
      CongMod(Pow(x, p - 2), p);
      CongMul(x, x, Pow(x, p - 2) % p, Pow(x, p - 2), p);
      UniqueRemainder(1, 0, 1, p);
    } else {
      UniqueRemainder(0, 0, 0, p);
      CongPow(x, 0, p - 2, p);
      PowOfZero(p - 2);
    }
  }

  /** No zero divisors. */
  lemma {:induction false} NoZeroDivisors(a: int, b: int, p: int)
    requires p > 2 && Fermat(p)
    requires (a * b) % p == 0 && a % p != 0
    ensures b % p == 0
  {
    var i := Pow(a, p - 2);
    FermatAnywhere(a, p);
    assert Pow(a, p - 1) == a * i;
    UniqueRemainder(0, 0, 0, p);
    CongMul(a * b, 0, i, i, p);
    assert (a * b) * i == (a * i) * b;
    CongMul(a * i, 1, b, b, p);
  }

  // ----- the Legendre symbol -----

  function Chi(x: int, p: int): (c: int)
    requires p > 2
  {
    Pow(x, (p - 1) / 2) % p
  }

  lemma {:induction false} ChiOfProduct(a: int, b: int, p: int)
    requires p > 2
    ensures Chi(a * b, p) == (Chi(a, p) * Chi(b, p)) % p
  {
    PowOfProduct(a, b, (p - 1) / 2);
    MulResidues(Pow(a, (p - 1) / 2), Pow(b, (p - 1) / 2), p);
  }

  lemma {:induction false} ChiOfCong(a: int, b: int, p: int)
    requires p > 2 && Cong(a, b, p)
    ensures Chi(a, p) == Chi(b, p)
  {
    CongPow(a, b, (p - 1) / 2, p);
  }

  /** A number whose square is 1 is 1 or -1. */
  lemma {:induction false} RootsOfOne(s: int, p: int)
    requires p > 2 && Fermat(p) && Cong(s * s, 1, p)
    ensures Cong(s, 1, p) || Cong(s, -1, p)
  {
    assert (s - 1) * (s + 1) == s * s - 1;
    CongSub(s * s, 1, 1, 1, p);
    UniqueRemainder(0, 0, 0, p);
    if (s - 1) % p == 0 {
      CongAdd(s - 1, 0, 1, 1, p);
    } else {
      NoZeroDivisors(s - 1, s + 1, p);
      CongSub(s + 1, 0, 1, 1, p);
    }
  }

  lemma {:induction false} MinusOne(p: int)
    requires p > 1
    ensures (-1) % p == p - 1 && 1 % p == 1 && 0 % p == 0
  {
    UniqueRemainder(-1, -1, p - 1, p);
    UniqueRemainder(1, 0, 1, p);
    UniqueRemainder(0, 0, 0, p);
  }

  /** The symbol takes only the values 0, 1 and -1, and is 0 exactly at 0. */
  lemma {:induction false} ChiValues(x: int, p: int)
    requires p > 2 && p % 2 == 1 && Fermat(p)
    ensures Chi(x, p) == 0 || Chi(x, p) == 1 || Chi(x, p) == p - 1
    ensures Chi(x, p) == 0 <==> x % p == 0
  {
    var h := (p - 1) / 2;
    MinusOne(p);
    if x % p == 0 {
      CongPow(x, 0, h, p);
      PowOfZero(h);
    } else {
      FermatAnywhere(x, p);
      PowTwice(x, h);
      assert 2 * h == p - 1;
      RootsOfOne(Pow(x, h), p);
    }
  }

  /** Every nonzero square has symbol 1. */
  lemma {:induction false} ChiOfSquare(y: int, p: int)
    requires p > 2 && p % 2 == 1 && Fermat(p) && y % p != 0
    ensures Chi(y * y, p) == 1
  {
    var h := (p - 1) / 2;
    FermatAnywhere(y, p);
    PowOfProduct(y, y, h);
    PowTwice(y, h);
    assert 2 * h == p - 1;
    MinusOne(p);
  }

  /** A square root of any x with symbol 1, for p = 5 mod 8: x^(k+1), or that times
      a square root of -1, which is a power of 2 because 2 is no square. */
  lemma {:induction false} RootFromSymbol(x: int, p: int) returns (y: int)
    requires p > 2 && p % 8 == 5 && Fermat(p) && TwoIsNoSquare(p)
    requires Chi(x, p) == 1
    ensures Cong(y * y, x, p)
  {
    var k := p / 8;
    assert (p - 1) / 2 == 4 * k + 2;
    MinusOne(p);
    var s := Pow(x, 2 * k + 1);
    PowTwice(x, 2 * k + 1);
    RootsOfOne(s, p);
    y := Pow(x, k + 1);
    PowTwice(x, k + 1);
    assert y * y == x * s;
    if Cong(s, 1, p) {
      CongMul(x, x, s, 1, p);
    } else {
      var i := Pow(2, 2 * k + 1);
      PowTwice(2, 2 * k + 1);
      CongMul(x, x, s, -1, p);
      assert Cong(y * y, -x, p);
      CongMul(y * y, -x, i * i, -1, p);
      Swap(y, i, y, i);
      y := y * i;
    }
  }

  /** Euler's criterion. */
  lemma {:induction false} EulersCriterion(x: int, p: int)
    requires p > 2 && p % 8 == 5 && Fermat(p) && TwoIsNoSquare(p)
    ensures Chi(x, p) == 1 <==> x % p != 0 && exists y :: Cong(y * y, x, p)
  {
    ChiValues(x, p);
    if Chi(x, p) == 1 {
      var y := RootFromSymbol(x, p);
    }
    if x % p != 0 && exists y :: Cong(y * y, x, p) {
      var y :| Cong(y * y, x, p);
      if y % p == 0 {
        MinusOne(p);
        CongMul(y, 0, y, 0, p);
      }
      ChiOfSquare(y, p);
      ChiOfCong(y * y, x, p);
    }
  }
}
