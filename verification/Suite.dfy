/** The cryptographic functions, known only by their laws. */
module Suite {
  import opened Common
  import opened Encodings

  /** SHA-512 and its HMAC, the map from generator strings to group elements, scalar
      multiplication (None for a point of low order), the derivation of the pre-shared key,
      SHA-256 and its HMAC, and authenticated encryption. */
  datatype Suite = Suite(
    hash: Bytes -> Bytes,
    mac: (Bytes, Bytes) -> Bytes,
    element: Bytes -> Bytes,
    base: Bytes,
    dh: (Bytes, Bytes) -> Option<Bytes>,
    psk: Bytes -> Bytes,
    sha: Bytes -> Bytes,
    hmac: (Bytes, Bytes) -> Bytes,
    seal: (Bytes, nat, Bytes, Bytes) -> Bytes,
    open: (Bytes, nat, Bytes, Bytes) -> Option<Bytes>)

  const TAG_SIZE := 16
  const KEY_SIZE := 32

  /** Public key of a secret scalar. */
  function Public(su: Suite, e: Bytes): Bytes {
    var p := su.dh(e, su.base);
    if p.None? then [] else p.value
  }

  ghost predicate Multiplies(su: Suite, a: Bytes, b: Bytes, g: Bytes) {
    su.dh(a, g).Some? && su.dh(b, g).Some? ==>
      su.dh(a, su.dh(b, g).value).Some? && su.dh(a, su.dh(b, g).value) == su.dh(b, su.dh(a, g).value)
  }

  ghost predicate Opens(su: Suite, k: Bytes, n: nat, ad: Bytes, pt: Bytes) {
    su.open(k, n, ad, su.seal(k, n, ad, pt)) == Some(pt) && |su.seal(k, n, ad, pt)| == |pt| + TAG_SIZE
  }

  /** What honest parties rely on. */
  ghost predicate Laws(su: Suite) {
    && (forall a, b, g :: Multiplies(su, a, b, g))
    && (forall a, s :: su.dh(a, su.element(s)).Some?)
    && (forall a :: su.dh(a, su.base).Some? && |su.dh(a, su.base).value| == KEY_SIZE)
    && (forall k :: |su.psk(k)| == KEY_SIZE)
    && (forall k, n, ad, pt :: Opens(su, k, n, ad, pt))
  }

  ghost predicate Cancels(su: Suite, a: Bytes, x: Bytes, y: Bytes) {
    su.dh(a, x).Some? && su.dh(a, x) == su.dh(a, y) ==> x == y
  }

  ghost predicate HashSeparates(su: Suite, x: Bytes, y: Bytes) {
    su.hash(x) == su.hash(y) ==> x == y
  }

  ghost predicate ElementSeparates(su: Suite, x: Bytes, y: Bytes) {
    su.element(x) == su.element(y) ==> x == y
  }

  ghost predicate MacSeparates(su: Suite, k: Bytes, x: Bytes, l: Bytes, y: Bytes) {
    su.mac(k, x) == su.mac(l, y) ==> k == l && x == y
  }

  ghost predicate ShaSeparates(su: Suite, x: Bytes, y: Bytes) {
    su.sha(x) == su.sha(y) ==> x == y
  }

  ghost predicate HmacSeparates(su: Suite, k: Bytes, x: Bytes, l: Bytes, y: Bytes) {
    su.hmac(k, x) == su.hmac(l, y) ==> k == l && x == y
  }

  /** No two different terms have the same value. */
  ghost predicate Free(su: Suite) {
    && (forall a, x, y :: Cancels(su, a, x, y))
    && (forall x, y :: HashSeparates(su, x, y))
    && (forall x, y :: ElementSeparates(su, x, y))
    && (forall k, x, l, y :: MacSeparates(su, k, x, l, y))
    && (forall x, y :: ShaSeparates(su, x, y))
    && (forall k, x, l, y :: HmacSeparates(su, k, x, l, y))
  }

  /** A toy suite that obeys all the laws, so that they do not contradict each other. */
  function Toy(): Suite {
    Suite(x => x, (k, x) => PrependedLen(k) + x, s => Zeros(33) + s, Zeros(32),
          (a, x) => Some(if |x| <= 32 then x else x + Zeros(|a|)),
          k => Zeros(32), x => x, (k, x) => PrependedLen(k) + x,
          (k, n, ad, pt) => pt + Zeros(16),
          (k, n, ad, ct) => if |ct| < 16 then None else Some(ct[..|ct| - 16]))
  }

  lemma {:induction false} LawsHoldOfToy()
    ensures Laws(Toy()) && Free(Toy())
  {
    var su := Toy();
    forall a, b, g ensures Multiplies(su, a, b, g) {
      assert (g + Zeros(|b|)) + Zeros(|a|) == (g + Zeros(|a|)) + Zeros(|b|);
    }
    forall k: Bytes, n: nat, ad: Bytes, pt: Bytes ensures Opens(su, k, n, ad, pt) {
      assert (pt + Zeros(16))[..|pt|] == pt;
    }
    forall a, x, y ensures Cancels(su, a, x, y) {
      if |x| > 32 && |y| > 32 && x + Zeros(|a|) == y + Zeros(|a|) {
        assert x == (x + Zeros(|a|))[..|x|] && y == (y + Zeros(|a|))[..|y|];
      }
    }
    forall x, y ensures ElementSeparates(su, x, y) {
      assert x == (Zeros(33) + x)[33..] && y == (Zeros(33) + y)[33..];
    }
    forall k, x, l, y ensures MacSeparates(su, k, x, l, y) && HmacSeparates(su, k, x, l, y) {
      if PrependedLen(k) + x == PrependedLen(l) + y {
        PrependedLenUnique(k, x, l, y);
      }
    }
  }
}
