/** The 32-byte little-endian encoding of field elements (section 5 of RFC 7748). */
module FieldBytes {
  import opened Bits
  import opened Limbs
  import opened Field

  type Byte = x: int | 0 <= x < 256

  const TWO255: int := P + 19

  lemma {:induction false} EightBits(n: nat)
    ensures Pow2(8 + n) == 256 * Pow2(n)
  {
    Pow2Add(8, n);
    assert Pow2(8) == 256;
  }

  /** The number a little-endian byte sequence stands for. */
  function LittleEndian(b: seq<Byte>): (v: nat)
    ensures v < Pow2(8 * |b|)
  {
    if b == [] then 0
    else
      EightBits(8 * |b[1..]|);
      b[0] + 256 * LittleEndian(b[1..])
  }

  lemma {:induction false} LittleEndianAppend(b: seq<Byte>, c: seq<Byte>)
    ensures LittleEndian(b + c) == LittleEndian(b) + Pow2(8 * |b|) * LittleEndian(c)
  {
    if b == [] {
      assert b + c == c;
    } else {
      LittleEndianAppend(b[1..], c);
      assert (b + c)[1..] == b[1..] + c;
      EightBits(8 * |b[1..]|);
      Regroup(b[0], LittleEndian(b[1..]), Pow2(8 * |b[1..]|), LittleEndian(c));
    }
  }

  lemma {:induction false} Regroup(b: int, l: int, p: int, c: int)
    ensures b + 256 * (l + p * c) == b + 256 * l + (256 * p) * c
  {
  }

  /** One byte ors into a word at its own place. */
  method OrByte(word: nat, b: seq<Byte>, k: nat) returns (r: nat)
    requires k < |b|
    requires word == LittleEndian(b[..k])
    ensures r == LittleEndian(b[..k + 1])
  {
    r := Or(word, b[k] * Pow2(8 * k));
    OrShifted(8 * k, word, b[k]);
    LittleEndianAppend(b[..k], [b[k]]);
    assert b[..k + 1] == b[..k] + [b[k]];
    assert LittleEndian([b[k]]) == b[k] + 256 * LittleEndian([]);
    assert Pow2(8 * k) * b[k] == b[k] * Pow2(8 * k);
  }

  /** Eight bytes packed into a word, lowest first. */
  method PackWord(b: seq<Byte>) returns (word: Limb)
    requires |b| == 8
    ensures word == LittleEndian(b)
  {
    assert b[..0] == [];
    var w := 0;
    w := OrByte(w, b, 0);
    w := OrByte(w, b, 1);
    w := OrByte(w, b, 2);
    w := OrByte(w, b, 3);
    w := OrByte(w, b, 4);
    w := OrByte(w, b, 5);
    w := OrByte(w, b, 6);
    w := OrByte(w, b, 7);
    assert b[..8] == b;
    Pow2At64();
    word := w;
  }

  /** A word and the bytes behind it. */
  lemma {:induction false} WordThen(w: seq<Byte>, rest: seq<Byte>)
    requires |w| == 8
    ensures LittleEndian(w + rest) == LittleEndian(w) + W * LittleEndian(rest)
  {
    Pow2At64();
    LittleEndianAppend(w, rest);
  }

  lemma {:induction false} FourParts(b: seq<Byte>)
    requires |b| == 32
    ensures b == b[0..8] + (b[8..16] + (b[16..24] + b[24..32]))
  {
  }

  /** Words and bytes agree: four words of eight bytes each. */
  lemma {:induction false} FourWords(b: seq<Byte>, t: seq<Limb>)
    requires |b| == 32 && |t| == 4
    requires t[0] == LittleEndian(b[0..8]) && t[1] == LittleEndian(b[8..16])
    requires t[2] == LittleEndian(b[16..24]) && t[3] == LittleEndian(b[24..32])
    ensures LittleEndian(b) == Num(t)
  {
    FourParts(b);
    var b0, b1, b2, b3 := b[0..8], b[8..16], b[16..24], b[24..32];
    WordThen(b0, b1 + (b2 + b3));
    WordThen(b1, b2 + b3);
    WordThen(b2, b3);
  }

  /** z = the element that 32 bytes encode, with bit 255 ignored. */
  method FeSetBytes(z: array<Limb>, b: seq<Byte>)
    requires z.Length == 4 && |b| == 32
    modifies z
    ensures Num(z[..]) == (LittleEndian(b) % TWO255) % P
  {
    var t := NewFe([0, 0, 0, 0]);
    for i := 0 to 4
      invariant forall k :: 0 <= k < i ==> t[k] == LittleEndian(b[8 * k..8 * k + 8])
    {
      t[i] := PackWord(b[8 * i..8 * i + 8]);
    }
    FourWords(b, t[..]);
    ClearTopBit(t);
    FeReduce(z, t);
  }

  method ClearTopBit(t: array<Limb>)
    requires t.Length == 4
    modifies t
    ensures Num(t[..]) < TWO255
    ensures Num(t[..]) == old(Num(t[..])) % TWO255
  {
    ghost var all, top := Num(t[..]), t[3] / TOP_BIT;
    t[3] := t[3] % TOP_BIT;
    ghost var rest := Num(t[..]);
    assert all == TWO255 * top + rest;
    UniqueRemainder(all, top, rest, TWO255);
  }

  /** The 32-byte encoding of x. */
  method FeBytes(x: array<Limb>) returns (b: array<Byte>)
    requires x.Length == 4
    ensures fresh(b) && b.Length == 32
    ensures LittleEndian(b[..]) == Num(x[..])
  {
    b := new Byte[32](_ => 0);
    for i := 0 to 4
      invariant forall k :: 0 <= k < i ==> LittleEndian(b[8 * k..8 * k + 8]) == x[k]
    {
      ghost var before := b[..];
      UnpackWord(b, 8 * i, x[i]);
      forall k | 0 <= k < i ensures b[8 * k..8 * k + 8] == before[8 * k..8 * k + 8] {
      }
    }
    FourWords(b[..], x[..]);
  }

  /** The eight bytes of a word, lowest first. */
  method UnpackWord(b: array<Byte>, o: nat, v: Limb)
    requires o + 8 <= b.Length
    modifies b
    ensures LittleEndian(b[o..o + 8]) == v
    ensures forall k :: 0 <= k < b.Length && !(o <= k < o + 8) ==> b[k] == old(b[k])
  {
    b[o] := v % 256;
    b[o + 1] := v / 0x100 % 256;
    b[o + 2] := v / 0x1_0000 % 256;
    b[o + 3] := v / 0x100_0000 % 256;
    b[o + 4] := v / 0x1_0000_0000 % 256;
    b[o + 5] := v / 0x100_0000_0000 % 256;
    b[o + 6] := v / 0x1_0000_0000_0000 % 256;
    b[o + 7] := v / 0x100_0000_0000_0000 % 256;
    EightDigits(b[o..o + 8], v);
  }

  lemma {:induction false} EightDigits(b: seq<Byte>, v: Limb)
    requires |b| == 8
    requires b[0] == v % 256 && b[1] == v / 0x100 % 256
    requires b[2] == v / 0x1_0000 % 256 && b[3] == v / 0x100_0000 % 256
    requires b[4] == v / 0x1_0000_0000 % 256 && b[5] == v / 0x100_0000_0000 % 256
    requires b[6] == v / 0x1_0000_0000_0000 % 256 && b[7] == v / 0x100_0000_0000_0000 % 256
    ensures LittleEndian(b) == v
  {
    HighDigits(b, v);
    assert LittleEndian(b[1..]) == v / 0x100 by {
      Digit(b, 3, v, 0x100_0000);
      Digit(b, 2, v, 0x1_0000);
      Digit(b, 1, v, 0x100);
    }
    Digit(b, 0, v, 1);
    assert b[0..] == b;
  }

  /** The upper four bytes. */
  lemma {:induction false} HighDigits(b: seq<Byte>, v: Limb)
    requires |b| == 8
    requires b[4] == v / 0x1_0000_0000 % 256 && b[5] == v / 0x100_0000_0000 % 256
    requires b[6] == v / 0x1_0000_0000_0000 % 256 && b[7] == v / 0x100_0000_0000_0000 % 256
    ensures LittleEndian(b[4..]) == v / 0x1_0000_0000
  {
    assert b[8..] == [];
    Digit(b, 7, v, 0x100_0000_0000_0000);
    Digit(b, 6, v, 0x1_0000_0000_0000);
    Digit(b, 5, v, 0x100_0000_0000);
    Digit(b, 4, v, 0x1_0000_0000);
  }

  lemma {:induction false} Digit(b: seq<Byte>, k: nat, v: Limb, scale: nat)
    requires k < |b| && scale > 0
    requires b[k] == v / scale % 256
    requires LittleEndian(b[k + 1..]) == v / (256 * scale)
    ensures LittleEndian(b[k..]) == v / scale
  {
    assert b[k..][1..] == b[k + 1..];
    DivDiv(v, scale);
  }

  lemma {:induction false} DivDiv(n: nat, a: nat)
    requires a > 0
    ensures n / (256 * a) == n / a / 256
  {
    var q := n / a;
    var d, e, r := q / 256, q % 256, n % a;
    Remix(a, d, e);
    ScaledRemainder(a, e, r);
    assert n == a * q + r;
    UniqueQuotient(n, d, a * e + r, 256 * a);
  }

  lemma {:induction false} Remix(a: int, d: int, e: int)
    ensures a * (256 * d + e) == (256 * a) * d + a * e
  {
    Distribute(a, 256 * d, e);
  }

  lemma {:induction false} ScaledRemainder(a: int, e: int, r: int)
    requires 0 <= e < 256 && 0 <= r < a
    ensures 0 <= a * e + r < 256 * a
  {
    assert a * (e + 1) <= a * 256;
  }

  /** Decoding what encoding wrote gives back every reduced element, and setting
      bit 255 on the wire changes nothing. */
  lemma {:induction false} RoundTrip(x: int, b: seq<Byte>)
    requires 0 <= x < P && |b| == 32
    requires LittleEndian(b) == x || LittleEndian(b) == x + TWO255
    ensures (LittleEndian(b) % TWO255) % P == x
  {
    UniqueRemainder(LittleEndian(b), if LittleEndian(b) == x then 0 else 1, x, TWO255);
    UniqueRemainder(x, 0, x, P);
  }
}
