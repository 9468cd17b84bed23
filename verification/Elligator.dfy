/** The Elligator 2 map onto Curve25519, y^2 = u^3 + A*u^2 + u, with the non-square
    Z = 2 (draft-irtf-cfrg-cpace-21, Appendix A.5). */
module Elligator {
  import opened Limbs
  import opened Field
  import opened FieldBytes
  import opened FieldLaws

  const A: int := 486662
  const HALF_A: int := 243331
  const FE_A: seq<Limb> := [486662, 0, 0, 0]
  const FE_A_HALF: seq<Limb> := [243331, 0, 0, 0]

  // ----- the map on integers mod p -----

  /** v = -A / (1 + 2*r^2), division being by the power p - 2. */
  function MapV(r: int, p: int): int
    requires p > 2
  {
    -A * Pow(1 + 2 * (r * r), p - 2)
  }

  /** The right-hand side of the curve equation. */
  function Curve(u: int): int {
    u * (u * u + A * u + 1)
  }

  /** u = epsilon*v - (1 - epsilon)*A/2 with epsilon the symbol of the curve equation at v. */
  function Map(r: int, p: int): int
    requires p > 2
  {
    var v := MapV(r, p);
    var eps := Chi(Curve(v), p);
    eps * v - (1 - eps) * HALF_A
  }

  /** 1 + 2*r^2 is never zero: 2 would be minus the square of 1/r, and -1 is a square. */
  lemma {:induction false} DenominatorNotZero(r: int, p: int)
    requires p > 2 && p % 8 == 5 && Fermat(p) && TwoIsNoSquare(p)
    ensures (1 + 2 * (r * r)) % p != 0
  {
    MinusOne(p);
    TwiceSquareIsNoUnit(r, -1, p);
    if (1 + 2 * (r * r)) % p == 0 {
      CongSub(1 + 2 * (r * r), 0, 1, 1, p);
    }
  }

  lemma {:induction false} ChiOfMinusOne(p: int)
    requires p > 2 && p % 8 == 5
    ensures Chi(-1, p) == 1
  {
    var k := p / 8;
    assert (p - 1) / 2 == 2 * (2 * k + 1);
    PowTwice(-1, 2 * k + 1);
    PowOfProduct(-1, -1, 2 * k + 1);
    PowOfOne(2 * k + 1);
    MinusOne(p);
  }

  /** v * (1 + 2*r^2) = -A, hence -v - A = 2*r^2*v. */
  lemma {:induction false} RationalMap(r: int, p: int)
    requires p > 2 && p % 8 == 5 && Fermat(p) && TwoIsNoSquare(p)
    ensures Cong(MapV(r, p) * (1 + 2 * (r * r)), -A, p)
    ensures Cong(-MapV(r, p) - A, 2 * (r * r) * MapV(r, p), p)
  {
    var d, v, z := 1 + 2 * (r * r), MapV(r, p), 2 * (r * r);
    var i := Pow(d, p - 2);
    DenominatorNotZero(r, p);
    FermatAnywhere(d, p);
    assert Pow(d, p - 1) == d * i;
    CongMul(-A, -A, d * i, 1, p);
    assert v * d == -A * (d * i);
    assert v * d == v + z * v;
    CongSub(v * d, -A, v + A, v + A, p);
    CongSub(0, 0, z * v - A, -A - (v + A), p);
    assert Cong(z * v - A, -v - A - A, p);
    CongAdd(z * v - A, -v - A - A, A, A, p);
  }

  lemma {:induction false} VNotZero(r: int, p: int)
    requires p > A && p % 8 == 5 && Fermat(p) && TwoIsNoSquare(p)
    ensures MapV(r, p) % p != 0
  {
    var v, d := MapV(r, p), 1 + 2 * (r * r);
    RationalMap(r, p);
    MinusOne(p);
    if v % p == 0 {
      CongMul(v, 0, d, d, p);
      CongSub(v * d, -A, 0, 0, p);
      CongSub(-A, 0, -A, -A, p);
      UniqueRemainder(A, 0, A, p);
    }
  }

  /** 2*s^2 is never 1 nor -1, since 2 is no square and -1 is one. */
  lemma {:induction false} TwiceSquareIsNoUnit(s: int, c: int, p: int)
    requires p > 2 && p % 8 == 5 && Fermat(p) && TwoIsNoSquare(p)
    requires c == 1 || c == -1
    ensures !Cong(2 * (s * s), c, p)
  {
    MinusOne(p);
    if s % p == 0 {
      CongMul(s, 0, s, 0, p);
      CongMul(2, 2, s * s, 0, p);
    } else {
      ChiOfSquare(s, p);
      ChiOfProduct(2, s * s, p);
      MinusOneSquared(p);
      ChiOfMinusOne(p);
      PowOfOne((p - 1) / 2);
      if Cong(2 * (s * s), c, p) {
        ChiOfCong(2 * (s * s), c, p);
      }
    }
  }

  /** v^2 + A*v + 1 is not zero: otherwise 2*(r*v)^2 would be 1. */
  lemma {:induction false} QuadraticNotZero(r: int, p: int)
    requires p > A && p % 8 == 5 && Fermat(p) && TwoIsNoSquare(p)
    ensures (MapV(r, p) * MapV(r, p) + A * MapV(r, p) + 1) % p != 0
  {
    var v := MapV(r, p);
    RationalMap(r, p);
    QuadraticAtV(r, v, p);
    TwiceSquareIsNoUnit(r * v, 1, p);
  }

  lemma {:induction false} QuadraticAtV(r: int, v: int, p: int)
    requires p > 2 && Cong(-v - A, 2 * (r * r) * v, p)
    ensures (v * v + A * v + 1) % p == 0 ==> Cong(2 * ((r * v) * (r * v)), 1, p)
  {
    var q, s, other := v * v + A * v + 1, r * v, 2 * (r * r) * v;
    MinusOne(p);
    CongMul(v, v, -v - A, other, p);
    SquareOut(r, v);
    assert v * (-v - A) == 1 - q;
    if q % p == 0 {
      CongSub(1, 1, q, 0, p);
    }
  }

  lemma {:induction false} SquareOut(r: int, v: int)
    ensures v * (2 * (r * r) * v) == 2 * ((r * v) * (r * v))
    ensures (2 * (r * r) * v) * v == 2 * ((r * v) * (r * v))
  {
    Swap(r, v, r, v);
    assert v * (2 * (r * r) * v) == 2 * (v * ((r * r) * v));
    assert v * ((r * r) * v) == (r * r) * (v * v);
  }

  /** The curve equation has no zero at v, so epsilon is 1 or -1. */
  lemma {:induction false} CurveNotZeroAtV(r: int, p: int)
    requires p > A && p % 8 == 5 && Fermat(p) && TwoIsNoSquare(p)
    ensures Curve(MapV(r, p)) % p != 0
    ensures Chi(Curve(MapV(r, p)), p) == 1 || Chi(Curve(MapV(r, p)), p) == p - 1
  {
    var v := MapV(r, p);
    var q := v * v + A * v + 1;
    VNotZero(r, p);
    QuadraticNotZero(r, p);
    if Curve(v) % p == 0 {
      NoZeroDivisors(v, q, p);
    }
    ChiValues(Curve(v), p);
  }

  /** Which of the two candidates the formula picks. */
  lemma {:induction false} MapChooses(r: int, p: int)
    requires p > A && p % 8 == 5 && Fermat(p) && TwoIsNoSquare(p)
    ensures Chi(Curve(MapV(r, p)), p) == 1 ==> Cong(Map(r, p), MapV(r, p), p)
    ensures Chi(Curve(MapV(r, p)), p) != 1 ==> Cong(Map(r, p), -MapV(r, p) - A, p)
  {
    var v := MapV(r, p);
    var eps := Chi(Curve(v), p);
    CurveNotZeroAtV(r, p);
    if eps != 1 {
      assert eps == p - 1;
      assert (p - 1) * v - (1 - (p - 1)) * HALF_A == (-v - A) + p * (v + HALF_A);
      CongByMultiple(Map(r, p), -v - A, v + HALF_A, p);
    }
  }

  lemma {:induction false} CongCurve(a: int, b: int, p: int)
    requires p > 0 && Cong(a, b, p)
    ensures Cong(Curve(a), Curve(b), p)
  {
    CongMul(a, b, a, b, p);
    CongMul(A, A, a, b, p);
    CongAdd(a * a, b * b, A * a, A * b, p);
    CongAdd(a * a + A * a, b * b + A * b, 1, 1, p);
    CongMul(a, b, a * a + A * a + 1, b * b + A * b + 1, p);
  }

  /** At -v - A the curve equation is 2*r^2 times its value at v. */
  lemma {:induction false} CurveAtOther(r: int, p: int)
    requires p > 2 && p % 8 == 5 && Fermat(p) && TwoIsNoSquare(p)
    ensures Cong(Curve(-MapV(r, p) - A), 2 * (r * r) * Curve(MapV(r, p)), p)
  {
    var v := MapV(r, p);
    var q, z := v * v + A * v + 1, 2 * (r * r);
    var u := -v - A;
    RationalMap(r, p);
    assert u * u + A * u + 1 == q;
    CongMul(u, z * v, q, q, p);
    assert (z * v) * q == z * (v * q);
  }

  /** The symbol of the curve equation at the result is never -1. */
  lemma {:induction false} ResultHasSymbol(r: int, p: int)
    requires p > A && p % 8 == 5 && Fermat(p) && TwoIsNoSquare(p)
    ensures Chi(Curve(Map(r, p)), p) == 0 || Chi(Curve(Map(r, p)), p) == 1
  {
    var v, z := MapV(r, p), 2 * (r * r);
    var w := Curve(v);
    MapChooses(r, p);
    CurveNotZeroAtV(r, p);
    if Chi(w, p) == 1 {
      CongCurve(Map(r, p), v, p);
      ChiOfCong(Curve(Map(r, p)), w, p);
    } else {
      CongCurve(Map(r, p), -v - A, p);
      CurveAtOther(r, p);
      ChiOfCong(Curve(Map(r, p)), z * w, p);
      if r % p == 0 {
        MinusOne(p);
        CongMul(r, 0, r, 0, p);
        CongMul(2, 2, r * r, 0, p);
        CongMul(z, 0, w, w, p);
        ChiValues(z * w, p);
      } else {
        ChiOfSquare(r, p);
        ChiOfProduct(2, r * r, p);
        ChiOfProduct(z, w, p);
        MinusOneSquared(p);
      }
    }
  }

  lemma {:induction false} MinusOneSquared(p: int)
    requires p > 2
    ensures ((p - 1) * (p - 1)) % p == 1
    ensures ((p - 1) * 1) % p == p - 1
  {
    assert (p - 1) * (p - 1) == p * (p - 2) + 1;
    UniqueRemainder((p - 1) * (p - 1), p - 2, 1, p);
    UniqueRemainder(p - 1, 0, p - 1, p);
  }

  lemma {:induction false} SquareRootExists(w: int, p: int)
    requires p > 2 && p % 8 == 5 && Fermat(p) && TwoIsNoSquare(p)
    requires Chi(w, p) == 0 || Chi(w, p) == 1
    ensures exists y :: Cong(y * y, w, p)
  {
    if Chi(w, p) == 1 {
      var y := RootFromSymbol(w, p);
    } else {
      ChiValues(w, p);
      MinusOne(p);
      assert Cong(0 * 0, w, p);
    }
  }

  /** Every field element is mapped to the u-coordinate of a point on the curve. */
  lemma {:induction false} OnCurve(r: int, p: int)
    requires p > A && p % 8 == 5 && Fermat(p) && TwoIsNoSquare(p)
    ensures exists y :: Cong(y * y, Curve(Map(r, p)), p)
  {
    ResultHasSymbol(r, p);
    SquareRootExists(Curve(Map(r, p)), p);
  }

  // ----- the program -----

  /** t = 1 + 2*r^2, element by element. */
  method ComputeDenominator(r: array<Limb>) returns (t: array<Limb>)
    requires r.Length == 4
    ensures fresh(t) && t.Length == 4
    ensures Cong(Num(t[..]), 1 + 2 * (Num(r[..]) * Num(r[..])), P)
  {
    ghost var x := Num(r[..]);
    var one := NewFe(FE_ONE);
    t := NewFe([0, 0, 0, 0]);
    FeSquare(t, r);
    ghost var t1 := Num(t[..]);
    FeAdd(t, t, t);
    ghost var t2 := Num(t[..]);
    FeAdd(t, t, one);
    StepsOfQuadratic(x * x, x * x, t1, t1, t2, Num(t[..]), P);
  }

  /** -A, as the program computes it once at start-up. */
  method NegA() returns (negA: array<Limb>)
    ensures fresh(negA) && negA.Length == 4 && Num(negA[..]) == (0 - A) % P
  {
    var zero := NewFe([0, 0, 0, 0]);
    var a := NewFe(FE_A);
    negA := NewFe([0, 0, 0, 0]);
    FeSub(negA, zero, a);
  }

  /** v = -A / (1 + 2*r^2), element by element. */
  method ComputeV(r: array<Limb>) returns (v: array<Limb>)
    requires r.Length == 4
    ensures fresh(v) && v.Length == 4
    ensures Num(v[..]) == MapV(Num(r[..]), P) % P
  {
    var negA := NegA();
    var t := ComputeDenominator(r);
    ghost var d := Num(t[..]);
    FeInvert(t, t);
    v := NewFe([0, 0, 0, 0]);
    FeMul(v, negA, t);
    StepsOfV(Num(r[..]), d, P);
  }

  lemma {:induction false} StepsOfV(x: int, t: int, p: int)
    requires p > 2
    requires Cong(t, 1 + 2 * (x * x), p)
    ensures (((0 - A) % p) * (Pow(t, p - 2) % p)) % p == MapV(x, p) % p
  {
    var d := 1 + 2 * (x * x);
    CongPow(t, d, p - 2, p);
    MulResidues(-A, Pow(t, p - 2), p);
    CongMul(-A, -A, Pow(t, p - 2), Pow(d, p - 2), p);
  }

  /** w = v * (v^2 + A*v + 1), element by element. */
  method ComputeCurve(v: array<Limb>) returns (w: array<Limb>)
    requires v.Length == 4 && Num(v[..]) < P
    ensures fresh(w) && w.Length == 4
    ensures Num(w[..]) == Curve(Num(v[..])) % P
  {
    ghost var x := Num(v[..]);
    var one := NewFe(FE_ONE);
    var a := NewFe(FE_A);
    w := NewFe([0, 0, 0, 0]);
    var t := NewFe([0, 0, 0, 0]);
    FeSquare(w, v);
    ghost var w1 := Num(w[..]);
    FeMul(t, a, v);
    ghost var t1 := Num(t[..]);
    FeAdd(w, w, t);
    ghost var w2 := Num(w[..]);
    FeAdd(w, w, one);
    ghost var w3 := Num(w[..]);
    FeMul(w, w, v);
    StepsOfCurve(x, w1, t1, w2, w3, P);
  }

  lemma {:induction false} StepsOfCurve(x: int, w1: int, t1: int, w2: int, w3: int, p: int)
    requires p > 2
    requires w1 == (x * x) % p && t1 == (A * x) % p && w2 == (w1 + t1) % p && w3 == (w2 + 1) % p
    ensures (w3 * x) % p == Curve(x) % p
  {
    StepsOfQuadratic(x * x, A * x, w1, t1, w2, w3, p);
    var q := x * x + A * x + 1;
    CongMul(w3, q, x, x, p);
    assert q * x == x * q;
  }

  lemma {:induction false} StepsOfQuadratic(s: int, t: int, w1: int, t1: int, w2: int, w3: int, p: int)
    requires p > 2
    requires w1 == s % p && t1 == t % p && w2 == (w1 + t1) % p && w3 == (w2 + 1) % p
    ensures Cong(w3, s + t + 1, p)
  {
    CongMod(s, p);
    CongMod(t, p);
    CongAdd(w1, s, t1, t, p);
    CongMod(w1 + t1, p);
    CongAdd(w2, s + t, 1, 1, p);
    CongMod(w2 + 1, p);
  }

  /** u = eps*v - (1 - eps)*A/2, element by element. */
  method ComputeU(v: array<Limb>, eps: array<Limb>) returns (u: array<Limb>)
    requires v.Length == 4 && eps.Length == 4 && Num(eps[..]) < P
    ensures fresh(u) && u.Length == 4
    ensures Num(u[..]) == (Num(eps[..]) * Num(v[..]) - (1 - Num(eps[..])) * HALF_A) % P
  {
    ghost var x, e := Num(v[..]), Num(eps[..]);
    var one := NewFe(FE_ONE);
    var halfA := NewFe(FE_A_HALF);
    var t := NewFe([0, 0, 0, 0]);
    u := NewFe([0, 0, 0, 0]);
    FeMul(u, eps, v);
    ghost var u1 := Num(u[..]);
    FeSub(t, one, eps);
    ghost var t1 := Num(t[..]);
    FeMul(t, t, halfA);
    ghost var t2 := Num(t[..]);
    FeSub(u, u, t);
    StepsOfU(x, e, u1, t1, t2, P);
  }

  lemma {:induction false} StepsOfU(x: int, e: int, u1: int, t1: int, t2: int, p: int)
    requires p > 2
    requires u1 == (e * x) % p && t1 == (1 - e) % p && t2 == (t1 * HALF_A) % p
    ensures (u1 - t2) % p == (e * x - (1 - e) * HALF_A) % p
  {
    CongMod(e * x, p);
    CongMod(1 - e, p);
    CongMul(t1, 1 - e, HALF_A, HALF_A, p);
    CongMod(t1 * HALF_A, p);
    CongSub(u1, e * x, t2, (1 - e) * HALF_A, p);
  }

  /** The whole map: the bytes returned encode the rational map at r, reduced mod p. */
  method Elligator2(r: array<Limb>) returns (b: array<Byte>)
    requires r.Length == 4
    ensures fresh(b) && b.Length == 32
    ensures LittleEndian(b[..]) == Map(Num(r[..]), P) % P
  {
    ghost var x := Num(r[..]);
    var v := ComputeV(r);
    var w := ComputeCurve(v);
    var eps := NewFe([0, 0, 0, 0]);
    FeChi(eps, w);
    var u := ComputeU(v, eps);
    StepsOfMap(x, Num(v[..]), Num(w[..]), Num(eps[..]), P);
    b := FeBytes(u);
  }

  lemma {:induction false} StepsOfMap(x: int, v: int, w: int, eps: int, p: int)
    requires p > 2
    requires v == MapV(x, p) % p && w == Curve(v) % p && eps == Pow(w, (p - 1) / 2) % p
    ensures (eps * v - (1 - eps) * HALF_A) % p == Map(x, p) % p
  {
    CongMod(MapV(x, p), p);
    CongCurve(v, MapV(x, p), p);
    CongMod(Curve(v), p);
    ChiOfCong(w, Curve(MapV(x, p)), p);
    CongMul(eps, eps, v, MapV(x, p), p);
    CongSub(eps * v, eps * MapV(x, p), (1 - eps) * HALF_A, (1 - eps) * HALF_A, p);
  }

  /** The program's result is the u-coordinate of a curve point, for every input. */
  lemma {:induction false} ProgramResultOnCurve(r: int, u: int)
    requires Fermat(P) && TwoIsNoSquare(P)
    requires u == Map(r, P) % P
    ensures exists y :: Cong(y * y, Curve(u), P)
  {
    OnCurve(r, P);
    var y :| Cong(y * y, Curve(Map(r, P)), P);
    CongMod(Map(r, P), P);
    CongCurve(u, Map(r, P), P);
    assert Cong(y * y, Curve(u), P);
  }
}
