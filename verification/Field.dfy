/** Arithmetic in GF(2^255-19) on four-word elements held in arrays, so that a
    result may overwrite one of its own operands. Contracts speak about the
    integer `Num(x[..])` that the four words stand for. */
module Field {
  import opened Bits
  import opened Limbs

  const P: int := 0x7fffffff_ffffffff_ffffffff_ffffffff_ffffffff_ffffffff_ffffffff_ffffffed

  /** 2^256 mod p. */
  const FOLD: int := 38

  const FE_ONE: seq<Limb> := [1, 0, 0, 0]
  const FE_P: seq<Limb> :=
    [0xffffffff_ffffffed, 0xffffffff_ffffffff, 0xffffffff_ffffffff, 0x7fffffff_ffffffff]

  const FE_INV_EXP: seq<Limb> :=
    [0xffffffff_ffffffeb, 0xffffffff_ffffffff, 0xffffffff_ffffffff, 0x7fffffff_ffffffff]
  const FE_CHI_EXP: seq<Limb> :=
    [0xffffffff_fffffff6, 0xffffffff_ffffffff, 0xffffffff_ffffffff, 0x3fffffff_ffffffff]

  lemma {:induction false} ExponentsMean()
    ensures Num(FE_INV_EXP) == P - 2
    ensures Num(FE_CHI_EXP) == (P - 1) / 2
  {
  }

  lemma {:induction false} ConstantsMean()
    ensures Num(FE_ONE) == 1
    ensures Num(FE_P) == P
    ensures W4 == 2 * P + 38
  {
    NumBound(FE_ONE);
    NumBound(FE_P);
  }

  /** The four-step carry chain that every addition runs; z may be x. */
  method AddWords(z: array<Limb>, x: array<Limb>, y: seq<Limb>) returns (c: Limb)
    requires z.Length == 4 && x.Length >= 4 && |y| == 4
    modifies z
    ensures c <= 1
    ensures Num(z[..]) + W4 * c == old(Num(x[..4])) + Num(y)
  {
    NumBound(x[..4]);
    NumBound(y);
    z[0], c := Add64(x[0], y[0], 0);
    z[1], c := Add64(x[1], y[1], c);
    z[2], c := Add64(x[2], y[2], c);
    z[3], c := Add64(x[3], y[3], c);
    NumBound(z[..]);
  }

  /** The four-step borrow chain that every subtraction runs; z may be x. */
  method SubWords(z: array<Limb>, x: array<Limb>, y: seq<Limb>) returns (b: Limb)
    requires z.Length == 4 && x.Length == 4 && |y| == 4
    modifies z
    ensures b <= 1
    ensures Num(z[..]) - W4 * b == old(Num(x[..])) - Num(y)
  {
    NumBound(x[..]);
    NumBound(y);
    z[0], b := Sub64(x[0], y[0], 0);
    z[1], b := Sub64(x[1], y[1], b);
    z[2], b := Sub64(x[2], y[2], b);
    z[3], b := Sub64(x[3], y[3], b);
    NumBound(z[..]);
  }

  /** After subtracting p once, the borrow tells which of v and v - p is v mod p. */
  lemma {:induction false} OneSubtraction(v: int, t: int, b: int, p: int, w: int)
    requires 0 <= v < 2 * p && 2 * p <= w
    requires 0 <= t < w && 0 <= b <= 1
    requires t - w * b == v - p
    ensures v % p == if b == 1 then v else t
  {
    assert b == if v < p then 1 else 0;
    if v >= p {
      assert v == 1 * p + (v - p);
    }
  }

  /** z = x mod p for x < 2p, by one subtraction of p undone under a mask. */
  method FeReduce(z: array<Limb>, x: array<Limb>)
    requires z.Length == 4 && x.Length == 4
    requires Num(x[..]) < 2 * P
    modifies z
    ensures Num(z[..]) == old(Num(x[..])) % P
  {
    ghost var v := x[..];
    var t := new Limb[4](_ => 0);
    var b := SubWords(t, x, FE_P);
    ConstantsMean();
    NumBound(t[..]);
    OneSubtraction(Num(v), Num(t[..]), b, P, W4);
    var m := Mask(b);
    z[0] := Select(m, t[0], x[0]);
    z[1] := Select(m, t[1], x[1]);
    z[2] := Select(m, t[2], x[2]);
    z[3] := Select(m, t[3], x[3]);
    assert z[..] == if b == 1 then v else t[..];
  }

  /** z = x + y. The sum of two reduced elements never carries out of four words. */
  method FeAdd(z: array<Limb>, x: array<Limb>, y: array<Limb>)
    requires z.Length == 4 && x.Length == 4 && y.Length == 4
    requires Num(x[..]) < P && Num(y[..]) < P
    modifies z
    ensures Num(z[..]) == (old(Num(x[..])) + old(Num(y[..]))) % P
  {
    var t := new Limb[4](_ => 0);
    var c := AddWords(t, x, y[..]);
    NumBound(t[..]);
    assert c == 0;
    FeReduce(z, t);
  }

  /** What adding p back after a borrow leaves, and that nothing else carries out. */
  lemma {:induction false} OneAddition(d: int, t: int, b: int, s: int, c: int, p: int, w: int)
    requires -p < d < p < w && 0 <= t < w && 0 <= s < w
    requires 0 <= b <= 1 && 0 <= c <= 1
    requires t - w * b == d && s + w * c == t + (if b == 1 then p else 0)
    ensures s == d % p
  {
    assert d < 0 <==> b == 1 by {
      WordTimesBit(w, b);
    }
    assert s == if d < 0 then d + p else d by {
      WordTimesBit(w, b);
      WordTimesBit(w, c);
    }
    if d < 0 {
      UniqueRemainder(d, -1, s, p);
    } else {
      UniqueRemainder(d, 0, s, p);
    }
  }

  lemma {:induction false} WordTimesBit(w: int, b: int)
    requires 0 <= b <= 1
    ensures w * b == if b == 0 then 0 else w
  {
  }

  /** p under a mask: all of it after a borrow, nothing otherwise. */
  method MaskedP(b: Limb) returns (p: seq<Limb>)
    requires b <= 1
    ensures |p| == 4 && Num(p) == if b == 1 then P else 0
  {
    var m := Mask(b);
    var p0 := MaskWord(FE_P[0], m);
    var p1 := MaskWord(FE_P[1], m);
    var p2 := MaskWord(FE_P[2], m);
    var p3 := MaskWord(FE_P[3], m);
    p := [p0, p1, p2, p3];
    ConstantsMean();
  }

  /** z = x - y, with p added back under a mask when the subtraction borrows. */
  method FeSub(z: array<Limb>, x: array<Limb>, y: array<Limb>)
    requires z.Length == 4 && x.Length == 4 && y.Length == 4
    requires Num(x[..]) < P && Num(y[..]) < P
    modifies z
    ensures Num(z[..]) == (old(Num(x[..])) - old(Num(y[..]))) % P
  {
    ghost var d := Num(x[..]) - Num(y[..]);
    var t := new Limb[4](_ => 0);
    var b := SubWords(t, x, y[..]);
    var p := MaskedP(b);
    ghost var v := Num(t[..]);
    NumBound(t[..]);
    var c := AddWords(z, t, p);
    NumBound(z[..]);
    OneAddition(d, v, b, Num(z[..]), c, P, W4);
  }

  // ----- multiplication -----

  /** One step of the schoolbook inner loop: lo + W*hi = x*y + r + carry never
      overflows two words, since (W-1)^2 + 2(W-1) < W^2. */
  method MulAddCarry(x: Limb, y: Limb, r: Limb, carry: Limb) returns (hi: Limb, lo: Limb)
    ensures lo + W * hi == x * y + r + carry
  {
    ProductBound(x, y, ONES);
    var h, l := Mul64(x, y);
    var c;
    l, c := Add64(l, r, 0);
    var h1: Limb := h + c;
    l, c := Add64(l, carry, 0);
    hi, lo := h1 + c, l;
  }

  lemma {:induction false} Distribute(k: int, a: int, b: int)
    ensures k * (a + b) == k * a + k * b
  {
  }

  lemma {:induction false} Reassociate(pi: int, pj: int, x: int, y: int)
    ensures (pi * pj) * (x * y) == pi * (x * (pj * y))
  {
    assert pj * (x * y) == x * (pj * y);
    assert (pi * pj) * (x * y) == pi * (pj * (x * y));
  }

  /** The inner step in terms of the whole partial product, for any base and weights. */
  lemma {:induction false} InnerStep(before: int, after: int, base: int, pi: int, pj: int, x: int, y: int, o: int,
                                     lo: int, hi: int, carry: int, done: int, part: int)
    requires before + (pi * pj) * carry == done + pi * (x * part)
    requires after == before + (pi * pj) * (lo - o)
    requires lo + base * hi == x * y + o + carry
    ensures after + (base * (pi * pj)) * hi == done + pi * (x * (part + pj * y))
  {
    var w := pi * pj;
    assert (base * w) * hi == w * (base * hi);
    Distribute(w, lo - o, base * hi);
    Distribute(w, x * y, carry);
    Reassociate(pi, pj, x, y);
    Distribute(x, part, pj * y);
    Distribute(pi, x * part, x * (pj * y));
  }

  lemma {:induction false} TakeOne(s: seq<Limb>, j: nat)
    requires j < |s|
    ensures Val(s[..j + 1]) == Val(s[..j]) + Pw(j) * s[j]
  {
    assert s[..j + 1] == s[..j] + [s[j]];
    ValAppend(s[..j], [s[j]]);
    assert Val([s[j]]) == s[j];
  }

  /** The row of one word of x: adds x[i] * y at weight i, and puts the last carry
      into the word above, which no earlier row has touched. */
  method MulRow(r: array<Limb>, i: nat, xi: Limb, y: array<Limb>, ghost done: int)
    requires r.Length == 8 && y.Length == 4 && i < 4 && r != y
    requires Val(r[..]) == done
    requires forall k :: i + 4 <= k < 8 ==> r[k] == 0
    modifies r
    ensures Val(r[..]) == done + Pw(i) * (xi * Val(y[..]))
    ensures forall k :: i + 5 <= k < 8 ==> r[k] == 0
  {
    var carry: Limb := 0;
    for j := 0 to 4
      invariant forall k :: i + 4 <= k < 8 ==> r[k] == 0
      invariant Val(r[..]) + Pw(i + j) * carry == done + Pw(i) * (xi * Val(y[..j]))
    {
      ghost var before := r[..];
      var hi, lo := MulAddCarry(xi, y[j], r[i + j], carry);
      r[i + j] := lo;
      ValUpdate(before, i + j, lo);
      assert r[..] == before[i + j := lo];
      PwAdd(i, j);
      InnerStep(Val(before), Val(r[..]), W, Pw(i), Pw(j), xi, y[j], before[i + j], lo, hi, carry, done, Val(y[..j]));
      TakeOne(y[..], j);
      assert y[..][..j] == y[..j] && y[..][..j + 1] == y[..j + 1];
      carry := hi;
    }
    ghost var before := r[..];
    r[i + 4] := carry;
    ValUpdate(before, i + 4, carry);
    assert r[..] == before[i + 4 := carry];
    assert y[..4] == y[..];
  }

  /** The exact 512-bit product: no carry out of the eight words is lost. */
  method MulWords(x: array<Limb>, y: array<Limb>) returns (r: array<Limb>)
    requires x.Length == 4 && y.Length == 4
    ensures fresh(r) && r.Length == 8
    ensures Val(r[..]) == Val(x[..]) * Val(y[..])
  {
    r := new Limb[8](_ => 0);
    ZeroVal(r[..]);
    for i := 0 to 4
      invariant forall k :: i + 4 <= k < 8 ==> r[k] == 0
      invariant Val(r[..]) == Val(x[..i]) * Val(y[..])
    {
      ghost var done := Val(r[..]);
      MulRow(r, i, x[i], y, done);
      TakeOne(x[..], i);
      assert x[..][..i] == x[..i] && x[..][..i + 1] == x[..i + 1];
      AddRow(Val(x[..i]), Pw(i), x[i], Val(y[..]));
    }
    assert x[..4] == x[..];
  }

  lemma {:induction false} AddRow(a: int, p: int, x: int, y: int)
    ensures (a + p * x) * y == a * y + p * (x * y)
  {
    Distribute(y, a, p * x);
    assert (p * x) * y == p * (x * y);
  }

  lemma {:induction false} ZeroVal(s: seq<Limb>)
    requires forall k :: 0 <= k < |s| ==> s[k] == 0
    ensures Val(s) == 0
  {
    if s != [] {
      ZeroVal(s[1..]);
    }
  }

  /** 38 times the upper half of the product, five words long; the top word is small. */
  method TimesThirtyEight(r: array<Limb>) returns (h: array<Limb>)
    requires r.Length == 8
    ensures fresh(h) && h.Length == 5 && h[4] <= 37
    ensures Num(h[..4]) + W4 * h[4] == 38 * Num(r[4..])
  {
    h := new Limb[5](_ => 0);
    var carry: Limb := 0;
    for i := 0 to 4
      invariant carry <= 37
      invariant i == 0 ==> carry == 0
      invariant i == 1 ==> h[0] + W * carry == FOLD * r[4]
      invariant i == 2 ==> h[0] + W * h[1] + W2 * carry == FOLD * (r[4] + W * r[5])
      invariant i == 3 ==> h[0] + W * h[1] + W2 * h[2] + W3 * carry == FOLD * (r[4] + W * r[5] + W2 * r[6])
      invariant i == 4 ==> Num(h[..4]) + W4 * carry == 38 * Num(r[4..])
    {
      var hi, lo := Mul64(r[4 + i], FOLD);
      var c;
      lo, c := Add64(lo, carry, 0);
      h[i] := lo;
      carry := hi + c;
    }
    h[4] := carry;
  }

  lemma {:induction false} SplitProduct(r: seq<Limb>)
    requires |r| == 8
    ensures Val(r) == Num(r[..4]) + W4 * Num(r[4..])
  {
    assert r == r[..4] + r[4..];
    ValAppend(r[..4], r[4..]);
    NumIsVal(r[..4]);
    NumIsVal(r[4..]);
    PwLiterals();
  }

  lemma {:induction false} AddMultiple(a: int, k: int, m: int)
    requires m > 0
    ensures (a + m * k) % m == a % m
  {
    var q := a / m;
    assert a + m * k == m * (q + k) + a % m by {
      Distribute(m, q, k);
    }
    UniqueRemainder(a + m * k, q + k, a % m, m);
  }

  lemma {:induction false} UniqueRemainder(n: int, q: int, r: int, m: int)
    requires 0 <= r < m && n == m * q + r
    ensures n % m == r
  {
    var d := n / m - q;
    Distribute(m, n / m, -q);
    assert m * d == r - n % m;
    MultipleGrows(m, d);
  }

  lemma {:induction false} MultipleGrows(m: int, d: int)
    requires m > 0
    ensures d >= 1 ==> m * d >= m
    ensures d <= -1 ==> m * d <= -m
  {
  }

  lemma {:induction false} FoldKeepsResidue(all: int, low: int, high: int)
    requires all == low + W4 * high
    ensures (low + 38 * high) % P == all % P
  {
    assert all == low + 38 * high + P * (2 * high);
    AddMultiple(low + 38 * high, 2 * high, P);
  }

  /** Folds at 2^256 = 38 mod p the small overflow `top` of the first fold. The addition
      can carry out at most once more, and folding that carry never carries out again. */
  method FoldOverflow(t: array<Limb>, top: Limb)
    requires t.Length == 4 && top <= 38
    modifies t
    ensures Num(t[..]) % P == (old(Num(t[..])) + W4 * top) % P
  {
    ghost var t0 := Num(t[..]);
    NumBound(t[..]);
    assert t[..4] == t[..];
    var c := AddWords(t, t, [top * 38, 0, 0, 0]);
    ghost var t1 := Num(t[..]);
    NumBound(t[..]);
    FoldKeepsResidue(t0 + W4 * top, t0, top);
    FoldKeepsResidue(t0 + 38 * top, t1, c);
    assert t[..4] == t[..];
    c := AddWords(t, t, [c * 38, 0, 0, 0]);
    NumBound(t[..]);
    assert c == 0;
  }

  /** Folds 512 bits to 256 at 2^256 = 38 mod p; what the first fold leaves above the
      four words is at most 38. */
  method FoldUpperHalf(r: array<Limb>) returns (t: array<Limb>)
    requires r.Length == 8
    ensures fresh(t) && t.Length == 4
    ensures Num(t[..]) % P == Val(r[..]) % P
  {
    ghost var lo, hi := Num(r[..4]), Num(r[4..]);
    assert Val(r[..]) == lo + W4 * hi by {
      SplitProduct(r[..]);
      assert r[..][4..] == r[4..] && r[..][..4] == r[..4];
    }
    FoldKeepsResidue(Val(r[..]), lo, hi);
    var h := TimesThirtyEight(r);
    t := NewFe([0, 0, 0, 0]);
    var c := AddWords(t, r, h[..4]);
    FoldOverflow(t, h[4] + c);
  }

  /** Folds bit 255 at 2^255 = 19 mod p: the result is below 2^255 + 19, so below 2p. */
  method FoldTopBit(t: array<Limb>)
    requires t.Length == 4
    modifies t
    ensures Num(t[..]) < P + 38 && Num(t[..]) % P == old(Num(t[..])) % P
  {
    ghost var before := Num(t[..]);
    var b: Limb := t[3] / TOP_BIT;
    t[3] := t[3] % TOP_BIT;
    ghost var low := Num(t[..]);
    assert before == low + (P + 19) * b;
    var c := AddWords(t, t, [b * 19, 0, 0, 0]);
    NumBound(t[..]);
    assert c == 0;
    AddMultiple(Num(t[..]), b, P);
  }

  /** z = x * y for any two four-word inputs, reduced or not. */
  method FeMul(z: array<Limb>, x: array<Limb>, y: array<Limb>)
    requires z.Length == 4 && x.Length == 4 && y.Length == 4
    modifies z
    ensures Num(z[..]) == (old(Num(x[..])) * old(Num(y[..]))) % P
  {
    NumIsVal(x[..]);
    NumIsVal(y[..]);
    var r := MulWords(x, y);
    var t := FoldUpperHalf(r);
    FoldTopBit(t);
    FeReduce(z, t);
  }

  /** z = x * x. */
  method FeSquare(z: array<Limb>, x: array<Limb>)
    requires z.Length == 4 && x.Length == 4
    modifies z
    ensures Num(z[..]) == (old(Num(x[..])) * old(Num(x[..]))) % P
  {
    FeMul(z, x, x);
  }

  // ----- powers -----

  function Pow(b: int, e: nat): int {
    if e == 0 then 1 else b * Pow(b, e - 1)
  }

  lemma {:induction false} PowAdd(b: int, e: nat, f: nat)
    ensures Pow(b, e + f) == Pow(b, e) * Pow(b, f)
  {
    if e > 0 {
      PowAdd(b, e - 1, f);
      assert Pow(b, e + f) == b * (Pow(b, e - 1) * Pow(b, f));
    }
  }

  lemma {:induction false} MulResidues(a: int, b: int, m: int)
    requires m > 0
    ensures ((a % m) * (b % m)) % m == (a * b) % m
  {
    var p, q := a / m, b / m;
    assert a == m * p + a % m && b == m * q + b % m;
    var k := p * b + (a % m) * q;
    assert a * b == (a % m) * (b % m) + m * k by {
      MulExpand(m, p, q, a % m, b % m);
    }
    AddMultiple((a % m) * (b % m), k, m);
  }

  lemma {:induction false} MulExpand(m: int, p: int, q: int, r: int, s: int)
    ensures (m * p + r) * (m * q + s) == r * s + m * (p * (m * q + s) + r * q)
  {
    Distribute(m, p * (m * q + s), r * q);
    assert (m * p) * (m * q + s) == m * (p * (m * q + s));
    assert r * (m * q) == m * (r * q);
    Distribute(r, m * q, s);
  }

  /** The exponent bits taken so far, and how one more bit extends them. */
  function Prefix(high: nat, word: Limb, left: nat): (k: nat)
    requires left <= 64
  {
    Shifted(high, word, Pow2(64 - left), Pow2(left));
    high * Pow2(64 - left) + word / Pow2(left)
  }

  lemma {:induction false} Shifted(high: nat, word: nat, up: nat, down: nat)
    requires down > 0
    ensures high * up >= 0 && word / down >= 0
  {
  }

  lemma {:induction false} PrefixStep(high: nat, word: Limb, left: nat)
    requires left < 64
    ensures Prefix(high, word, left) == 2 * Prefix(high, word, left + 1) + word / Pow2(left) % 2
  {
    var q := Pow2(left);
    assert word / (2 * q) == word / q / 2 by {
      DivTwice(word, q);
    }
    assert high * Pow2(64 - left) == 2 * (high * Pow2(64 - (left + 1)));
  }

  lemma {:induction false} DivTwice(n: nat, q: nat)
    requires q > 0
    ensures n / (2 * q) == n / q / 2
  {
    var d := n / q / 2;
    var r := n - 2 * q * d;
    assert n / q == 2 * d || n / q == 2 * d + 1;
    assert n == q * (n / q) + n % q;
    assert q * (n / q) == q * (2 * d) || q * (n / q) == q * (2 * d) + q;
    assert 0 <= r < 2 * q;
    UniqueQuotient(n, d, r, 2 * q);
  }

  lemma {:induction false} UniqueQuotient(n: int, q: int, r: int, m: int)
    requires 0 <= r < m && n == m * q + r
    ensures n / m == q
  {
    var d := n / m - q;
    Distribute(m, n / m, -q);
    assert m * d == r - n % m;
    MultipleGrows(m, d);
  }

  lemma {:induction false} PrefixEnds(high: nat, word: Limb)
    ensures Prefix(high, word, 64) == high
    ensures Prefix(high, word, 0) == high * W + word
  {
    Pow2At64();
  }

  /** Squaring, and multiplying by x when the next exponent bit is set. */
  lemma {:induction false} PowStep(x: int, k: nat, bit: nat, r: int, squared: int, next: int, m: int)
    requires m > 0 && bit <= 1
    requires r == Pow(x, k) % m
    requires squared == (r * r) % m
    requires next == if bit == 1 then (squared * x) % m else squared
    ensures next == Pow(x, 2 * k + bit) % m
  {
    PowAdd(x, k, k);
    MulResidues(Pow(x, k), Pow(x, k), m);
    if bit == 1 {
      TimesResidue(Pow(x, 2 * k), x, m);
    }
  }

  lemma {:induction false} ModTwice(a: int, m: int)
    requires m > 0
    ensures (a % m) % m == a % m
  {
    UniqueRemainder(a % m, 0, a % m, m);
  }

  lemma {:induction false} TimesResidue(a: int, x: int, m: int)
    requires m > 0
    ensures ((a % m) * x) % m == (x * a) % m
  {
    var r := a % m;
    ModTwice(a, m);
    MulResidues(a, x, m);
    MulResidues(r, x, m);
    assert r % m == r;
    assert (r * (x % m)) % m == (a * x) % m;
    assert (r * x) % m == (a * x) % m;
    assert a * x == x * a;
  }

  /** The inner loop: the 64 bits of one exponent word, highest first. */
  method FePowWord(r: array<Limb>, x: array<Limb>, word: Limb, ghost high: nat)
    requires r.Length == 4 && x.Length == 4 && r != x
    requires Num(r[..]) == Pow(Num(x[..]), high) % P
    modifies r
    ensures Num(r[..]) == Pow(Num(x[..]), high * W + word) % P
  {
    ghost var b := Num(x[..]);
    PrefixEnds(high, word);
    var j := 64;
    while j > 0
      invariant 0 <= j <= 64
      invariant Num(r[..]) == Pow(b, Prefix(high, word, j)) % P
    {
      j := j - 1;
      ghost var before := Num(r[..]);
      FeSquare(r, r);
      ghost var squared := Num(r[..]);
      var bit := word / Pow2(j) % 2;
      if bit == 1 {
        FeMul(r, r, x);
      }
      PrefixStep(high, word, j);
      PowStep(b, Prefix(high, word, j + 1), bit, before, squared, Num(r[..]), P);
    }
  }

  method NewFe(words: seq<Limb>) returns (z: array<Limb>)
    requires |words| == 4
    ensures fresh(z) && z.Length == 4 && z[..] == words && Num(z[..]) == Num(words)
  {
    z := new Limb[4](_ => 0);
    CopyFe(z, words);
  }

  method CopyFe(z: array<Limb>, words: seq<Limb>)
    requires z.Length == 4 && |words| == 4
    modifies z
    ensures z[..] == words
  {
    z[0], z[1], z[2], z[3] := words[0], words[1], words[2], words[3];
  }

  /** z = x^e mod p for every 256-bit exponent, which is read bit by bit from the top. */
  method FePow(z: array<Limb>, x: array<Limb>, e: seq<Limb>)
    requires z.Length == 4 && x.Length == 4 && |e| == 4
    modifies z
    ensures Num(z[..]) == Pow(old(Num(x[..])), Num(e)) % P
  {
    ghost var b := Num(x[..]);
    NumIsVal(e);
    PowZero(b);
    var r := NewFe(FE_ONE);
    assert Num(r[..]) == 1 by {
      ConstantsMean();
    }
    assert e[4..] == [];
    var i := 4;
    while i > 0
      invariant 0 <= i <= 4
      invariant Num(x[..]) == b
      invariant Num(r[..]) == Pow(b, Val(e[i..])) % P
    {
      i := i - 1;
      ValDrop(e, i);
      FePowWord(r, x, e[i], Val(e[i + 1..]));
    }
    assert e[0..] == e;
    CopyFe(z, r[..]);
  }

  lemma {:induction false} PowZero(b: int)
    ensures Pow(b, 0) % P == 1
  {
  }

  lemma {:induction false} ValDrop(e: seq<Limb>, i: nat)
    requires i < |e|
    ensures Val(e[i..]) == Val(e[i + 1..]) * W + e[i]
  {
    assert e[i..][1..] == e[i + 1..];
  }

  /** z = x^(p-2). */
  method FeInvert(z: array<Limb>, x: array<Limb>)
    requires z.Length == 4 && x.Length == 4
    modifies z
    ensures Num(z[..]) == Pow(old(Num(x[..])), P - 2) % P
  {
    ExponentsMean();
    FePow(z, x, FE_INV_EXP);
  }

  /** z = x^((p-1)/2). */
  method FeChi(z: array<Limb>, x: array<Limb>)
    requires z.Length == 4 && x.Length == 4
    modifies z
    ensures Num(z[..]) == Pow(old(Num(x[..])), (P - 1) / 2) % P
  {
    ExponentsMean();
    FePow(z, x, FE_CHI_EXP);
  }
}
