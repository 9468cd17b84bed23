/** 64-bit words, the carry and borrow primitives of Go's math/bits, and the
    integer that a little-endian sequence of words stands for. */
module Limbs {
  import opened Bits

  const W: int := 0x1_0000_0000_0000_0000
  const ONES: int := 0xffff_ffff_ffff_ffff
  const TOP_BIT: int := 0x8000_0000_0000_0000

  type Limb = x: int | 0 <= x < 0x1_0000_0000_0000_0000

  /** Exact sum of two words and a carry. */
  method Add64(x: Limb, y: Limb, carry: Limb) returns (sum: Limb, out: Limb)
    requires carry <= 1
    ensures sum + W * out == x + y + carry && out <= 1
  {
    sum, out := (x + y + carry) % W, (x + y + carry) / W;
  }

  /** Exact difference of two words and a borrow. */
  method Sub64(x: Limb, y: Limb, borrow: Limb) returns (diff: Limb, out: Limb)
    requires borrow <= 1
    ensures diff - W * out == x - y - borrow && out <= 1
  {
    diff := (x - y - borrow) % W;
    out := if x < y + borrow then 1 else 0;
  }

  /** The full 128-bit product. */
  method Mul64(x: Limb, y: Limb) returns (hi: Limb, lo: Limb)
    ensures hi * W + lo == x * y
  {
    ProductBound(x, y, ONES);
    assert ONES * ONES < W * W;
    hi, lo := x * y / W, x * y % W;
  }

  lemma {:induction false} ProductBound(x: int, y: int, n: int)
    requires 0 <= x <= n && 0 <= y <= n
    ensures 0 <= x * y <= n * n
  {
    assert x * y <= n * y <= n * n;
  }

  /** -b for a borrow bit b, in 64-bit arithmetic: all ones or all zeros. */
  function Mask(b: Limb): (m: Limb) { (W - b) % W }

  lemma {:induction false} Pow2At64()
    ensures Pow2(64) == W
  {
    assert Pow2(8) == 0x100;
    Pow2Add(8, 8);
    Pow2Add(16, 16);
    Pow2Add(32, 32);
  }

  lemma {:induction false} XorBound(n: nat, a: nat, b: nat)
    requires a < Pow2(n) && b < Pow2(n)
    ensures Xor(a, b) < Pow2(n)
  {
    if n > 0 {
      XorBound(n - 1, a / 2, b / 2);
    }
  }

  /** t ^ (m & (t ^ x)): x under an all-ones mask and t under a zero one. */
  method Select(m: Limb, t: Limb, x: Limb) returns (z: Limb)
    requires m == 0 || m == ONES
    ensures z == if m == ONES then x else t
  {
    Pow2At64();
    XorBound(64, t, x);
    AndOnes(64, Xor(t, x));
    XorCancel(t, x);
    z := Xor(t, And(m, Xor(t, x)));
  }

  /** v & m, which keeps or clears the whole word. */
  method MaskWord(v: Limb, m: Limb) returns (z: Limb)
    requires m == 0 || m == ONES
    ensures z == if m == ONES then v else 0
  {
    Pow2At64();
    AndSymmetric(v, m);
    AndOnes(64, v);
    z := And(v, m);
  }

  lemma {:induction false} AndSymmetric(a: nat, b: nat)
    ensures And(a, b) == And(b, a)
  {
    if a > 0 && b > 0 {
      AndSymmetric(a / 2, b / 2);
    }
  }

  /** The weight of word n. */
  function Pw(n: nat): (r: int)
    ensures r > 0
  {
    if n == 0 then 1 else W * Pw(n - 1)
  }

  lemma {:induction false} PwAdd(a: nat, b: nat)
    ensures Pw(a + b) == Pw(a) * Pw(b)
  {
    if a > 0 {
      PwAdd(a - 1, b);
      assert Pw(a + b) == W * (Pw(a - 1) * Pw(b));
    }
  }

  /** The number a little-endian word sequence stands for. */
  function Val(s: seq<Limb>): (v: nat)
  {
    if s == [] then 0 else s[0] + W * Val(s[1..])
  }

  lemma {:induction false} ValBound(s: seq<Limb>)
    ensures Val(s) < Pw(|s|)
  {
    if s != [] {
      ValBound(s[1..]);
      assert W * (Val(s[1..]) + 1) <= W * Pw(|s| - 1);
    }
  }

  lemma {:induction false} ValAppend(s: seq<Limb>, t: seq<Limb>)
    ensures Val(s + t) == Val(s) + Pw(|s|) * Val(t)
  {
    if s == [] {
      assert s + t == t;
    } else {
      ValAppend(s[1..], t);
      assert (s + t)[1..] == s[1..] + t;
      assert W * (Pw(|s| - 1) * Val(t)) == Pw(|s|) * Val(t);
    }
  }

  /** Writing one word changes the number by that word's weight. */
  lemma {:induction false} ValUpdate(s: seq<Limb>, i: nat, v: Limb)
    requires i < |s|
    ensures Val(s[i := v]) == Val(s) + Pw(i) * (v - s[i])
  {
    if i > 0 {
      ValUpdate(s[1..], i - 1, v);
      assert s[i := v][1..] == s[1..][i - 1 := v];
      assert W * (Pw(i - 1) * (v - s[i])) == Pw(i) * (v - s[i]);
    } else {
      assert s[0 := v][1..] == s[1..];
    }
  }

  const W2: int := 0x1_00000000_00000000_00000000_00000000
  const W3: int := 0x1_00000000_00000000_00000000_00000000_00000000_00000000
  const W4: int := 0x1_00000000_00000000_00000000_00000000_00000000_00000000_00000000_00000000

  lemma {:induction false} PwLiterals()
    ensures Pw(0) == 1 && Pw(1) == W && Pw(2) == W2 && Pw(3) == W3 && Pw(4) == W4
  {
    assert Pw(1) == W * Pw(0);
    assert Pw(2) == W * Pw(1);
    assert Pw(3) == W * Pw(2);
    assert Pw(4) == W * Pw(3);
  }

  /** The number four words stand for, written out. */
  function Num(s: seq<Limb>): int
    requires |s| == 4
  {
    s[0] + W * s[1] + W2 * s[2] + W3 * s[3]
  }

  lemma {:induction false} NumBound(s: seq<Limb>)
    requires |s| == 4
    ensures 0 <= Num(s) < W4
  {
  }

  lemma {:induction false} NumIsVal(s: seq<Limb>)
    requires |s| == 4
    ensures Num(s) == Val(s)
  {
    assert Val(s[1..][1..][1..][1..]) == 0;
    assert Val(s[1..][1..][1..]) == s[3];
    assert Val(s[1..][1..]) == s[2] + W * s[3];
    assert Val(s[1..]) == s[1] + W * s[2] + W2 * s[3];
  }
}
