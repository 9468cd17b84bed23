/** The two-message Noise handshake with a pre-shared key, and its cipher states. */
module Noise {
  import opened Common
  import opened Encodings
  import opened Suite

  const MAX_NONCE := 0xFFFF_FFFF_FFFF_FFFF

  // ----- cipher states -----

  datatype Cipher = Cipher(key: Bytes, n: nat)

  function Encrypted(su: Suite, c: Cipher, ad: Bytes, pt: Bytes): Option<(Bytes, Cipher)> {
    if c.n == MAX_NONCE then None else Some((su.seal(c.key, c.n, ad, pt), c.(n := c.n + 1)))
  }

  function Decrypted(su: Suite, c: Cipher, ad: Bytes, ct: Bytes): Option<(Bytes, Cipher)> {
    if c.n == MAX_NONCE then None
    else
      var pt := su.open(c.key, c.n, ad, ct);
      if pt.None? then None else Some((pt.value, c.(n := c.n + 1)))
  }

  // ----- symmetric states -----

  datatype Sym = Sym(ck: Bytes, h: Bytes, cs: Option<Cipher>)

  /** The i-th output of the key derivation; each feeds the next. */
  function HkdfAt(su: Suite, temp: Bytes, i: nat): Bytes
    requires 1 <= i <= 3
  {
    su.hmac(temp, (if i == 1 then [] else HkdfAt(su, temp, i - 1)) + [i])
  }

  function Hkdf(su: Suite, ck: Bytes, input: Bytes, num: nat): seq<Bytes>
    requires num <= 3
  {
    if num == 0 then [] else Hkdf(su, ck, input, num - 1) + [HkdfAt(su, su.hmac(ck, input), num)]
  }

  lemma {:induction false} HkdfLength(su: Suite, ck: Bytes, input: Bytes)
    ensures |Hkdf(su, ck, input, 2)| == 2 && |Hkdf(su, ck, input, 3)| == 3
  {
    assert |Hkdf(su, ck, input, 1)| == 1;
  }

  function MixHash(su: Suite, ss: Sym, data: Bytes): Sym {
    ss.(h := su.sha(ss.h + data))
  }

  function MixKey(su: Suite, ss: Sym, input: Bytes): Sym {
    HkdfLength(su, ss.ck, input);
    var out := Hkdf(su, ss.ck, input, 2);
    ss.(ck := out[0], cs := Some(Cipher(out[1], 0)))
  }

  function MixKeyAndHash(su: Suite, ss: Sym, input: Bytes): Sym {
    HkdfLength(su, ss.ck, input);
    var out := Hkdf(su, ss.ck, input, 3);
    MixHash(su, ss.(ck := out[0]), out[1]).(cs := Some(Cipher(out[2], 0)))
  }

  function EncryptAndHash(su: Suite, ss: Sym, pt: Bytes): Option<(Bytes, Sym)> {
    if ss.cs.None? then Some((pt, MixHash(su, ss, pt)))
    else
      var r := Encrypted(su, ss.cs.value, ss.h, pt);
      if r.None? then None else Some((r.value.0, MixHash(su, ss.(cs := Some(r.value.1)), r.value.0)))
  }

  function DecryptAndHash(su: Suite, ss: Sym, ct: Bytes): Option<(Bytes, Sym)> {
    if ss.cs.None? then Some((ct, MixHash(su, ss, ct)))
    else
      var r := Decrypted(su, ss.cs.value, ss.h, ct);
      if r.None? then None else Some((r.value.0, MixHash(su, ss.(cs := Some(r.value.1)), ct)))
  }

  function Split(su: Suite, ss: Sym): (Cipher, Cipher) {
    HkdfLength(su, ss.ck, []);
    var out := Hkdf(su, ss.ck, [], 2);
    (Cipher(out[0], 0), Cipher(out[1], 0))
  }

  const PROTOCOL_NAME: Bytes :=
    [78, 111, 105, 115, 101, 95, 78, 78, 112, 115, 107, 48, 95, 50, 53, 53, 49, 57, 95, 67, 104, 97, 67, 104, 97, 80,
     111, 108, 121, 95, 83, 72, 65, 50, 53, 54]

  function NewSym(su: Suite, prologue: Bytes): Sym {
    var h := su.sha(PROTOCOL_NAME);
    MixHash(su, Sym(h, h, None), prologue)
  }

  // ----- the handshake -----

  datatype Hand = Hand(ss: Sym, initiator: bool, psk: Bytes, e: Option<Bytes>, re: Option<Bytes>, msg: nat,
      failed: bool)

  /** The message or payload, and after the last message the two transport ciphers. */
  datatype Step = Step(out: Bytes, ciphers: Option<(Cipher, Cipher)>)

  function NewHand(su: Suite, initiator: bool, psk: Bytes): Option<Hand> {
    if |psk| != KEY_SIZE then None else Some(Hand(NewSym(su, []), initiator, psk, None, None, 0, false))
  }

  /** The state once one's own or the peer's ephemeral key has been mixed in; None when the
      shared point is bad. */
  function Mixed(su: Suite, hs: Hand, pub: Bytes): Option<Sym>
    requires hs.msg == 1 ==> hs.e.Some? && hs.re.Some?
  {
    var ss := if hs.msg == 0 then MixKeyAndHash(su, hs.ss, hs.psk) else hs.ss;
    var s1 := MixKey(su, MixHash(su, ss, pub), pub);
    if hs.msg != 1 then Some(s1)
    else
      var dh := su.dh(hs.e.value, hs.re.value);
      if dh.None? then None else Some(MixKey(su, s1, dh.value))
  }

  /** The responder has the initiator's key before it writes; the initiator has its own. */
  predicate Proper(hs: Hand) {
    hs.msg >= 1 && !hs.failed ==> if hs.initiator then hs.e.Some? else hs.re.Some?
  }

  function Written(su: Suite, hs: Hand, e: Bytes, payload: Bytes): Option<(Hand, Step)>
    requires Proper(hs)
  {
    if hs.failed || hs.initiator != (hs.msg == 0) || hs.msg > 1 then None
    else
      var mine := hs.(e := Some(e));
      var pub := Public(su, e);
      var s1 := Mixed(su, mine, pub);
      if s1.None? then None
      else
        var ct := EncryptAndHash(su, s1.value, payload);
        if ct.None? then None
        else
          var next := mine.(ss := ct.value.1, msg := hs.msg + 1);
          Some((next, Step(pub + ct.value.0, if next.msg == 2 then Some(Split(su, next.ss)) else None)))
  }

  function Read(su: Suite, hs: Hand, message: Bytes): Option<(Hand, Step)>
    requires Proper(hs)
  {
    if hs.failed || hs.initiator == (hs.msg == 0) || hs.msg > 1 || |message| < KEY_SIZE then None
    else
      var pub := message[..KEY_SIZE];
      var theirs := hs.(re := Some(pub));
      var s1 := Mixed(su, theirs, pub);
      if s1.None? then None
      else
        var pt := DecryptAndHash(su, s1.value, message[KEY_SIZE..]);
        if pt.None? then None
        else
          var next := theirs.(ss := pt.value.1, msg := hs.msg + 1);
          Some((next, Step(pt.value.0, if next.msg == 2 then Some(Split(su, next.ss)) else None)))
  }

  /** A symmetric state, updated in place. */
  class SymmetricState {
    var ck: Bytes
    var h: Bytes
    var cs: Option<Cipher>

    constructor (su: Suite, prologue: Bytes)
      ensures Value() == NewSym(su, prologue)
    {
      var hash := su.sha(PROTOCOL_NAME);
      ck, h, cs := hash, su.sha(hash + prologue), None;
    }

    function Value(): Sym
      reads this
    {
      Sym(ck, h, cs)
    }

    method DoMixHash(su: Suite, data: Bytes)
      modifies this
      ensures Value() == MixHash(su, old(Value()), data)
    {
      h := su.sha(h + data);
    }

    method DoMixKey(su: Suite, input: Bytes)
      modifies this
      ensures Value() == MixKey(su, old(Value()), input)
    {
      var out := DeriveKeys(su, ck, input, 2);
      ck := out[0];
      cs := Some(Cipher(out[1], 0));
    }

    method DoMixKeyAndHash(su: Suite, input: Bytes)
      modifies this
      ensures Value() == MixKeyAndHash(su, old(Value()), input)
    {
      var out := DeriveKeys(su, ck, input, 3);
      ck := out[0];
      DoMixHash(su, out[1]);
      cs := Some(Cipher(out[2], 0));
    }

    method DoEncryptAndHash(su: Suite, pt: Bytes) returns (ct: Option<Bytes>)
      modifies this
      ensures var r := EncryptAndHash(su, old(Value()), pt);
              ct.Some? == r.Some? && (ct.Some? ==> r.value == (ct.value, Value()))
    {
      if cs.None? {
        DoMixHash(su, pt);
        return Some(pt);
      }
      var r := Encrypted(su, cs.value, h, pt);
      if r.None? {
        return None;
      }
      cs := Some(r.value.1);
      DoMixHash(su, r.value.0);
      return Some(r.value.0);
    }

    method DoDecryptAndHash(su: Suite, ct: Bytes) returns (pt: Option<Bytes>)
      modifies this
      ensures var r := DecryptAndHash(su, old(Value()), ct);
              pt.Some? == r.Some? && (pt.Some? ==> r.value == (pt.value, Value()))
    {
      if cs.None? {
        DoMixHash(su, ct);
        return Some(ct);
      }
      var r := Decrypted(su, cs.value, h, ct);
      if r.None? {
        return None;
      }
      cs := Some(r.value.1);
      DoMixHash(su, ct);
      return Some(r.value.0);
    }
  }

  /** The key derivation: a chain of authentication codes. */
  method DeriveKeys(su: Suite, ck: Bytes, input: Bytes, num: nat) returns (out: seq<Bytes>)
    requires num <= 3
    ensures out == Hkdf(su, ck, input, num) && |out| == num
  {
    var temp := su.hmac(ck, input);
    var last: Bytes := [];
    out := [];
    for i := 1 to num + 1
      invariant out == Hkdf(su, ck, input, i - 1) && |out| == i - 1
      invariant last == if i == 1 then [] else HkdfAt(su, temp, i - 1)
    {
      last := su.hmac(temp, last + [i]);
      out := out + [last];
    }
  }

  /** A handshake, updated in place. */
  class HandshakeState {
    const ss: SymmetricState
    const initiator: bool
    const psk: Bytes
    var e: Option<Bytes>
    var re: Option<Bytes>
    var msg: nat
    var failed: bool

    constructor (su: Suite, i: bool, key: Bytes)
      requires |key| == KEY_SIZE
      ensures fresh(ss) && Some(Value()) == NewHand(su, i, key)
    {
      ss := new SymmetricState(su, []);
      initiator, psk, e, re, msg, failed := i, key, None, None, 0, false;
    }

    function Value(): Hand
      reads this, ss
    {
      Hand(ss.Value(), initiator, psk, e, re, msg, failed)
    }

    method Mix(su: Suite, pub: Bytes) returns (ok: bool)
      requires msg == 1 ==> e.Some? && re.Some?
      modifies ss
      ensures var s1 := Mixed(su, old(Value()), pub);
              ok == s1.Some? && (ok ==> Value() == old(Value()).(ss := s1.value))
    {
      if msg == 0 {
        ss.DoMixKeyAndHash(su, psk);
      }
      ss.DoMixHash(su, pub);
      ss.DoMixKey(su, pub);
      if msg == 1 {
        var dh := su.dh(e.value, re.value);
        if dh.None? {
          return false;
        }
        ss.DoMixKey(su, dh.value);
      }
      return true;
    }

    /** Records the failure: nothing works afterwards. */
    method Fail()
      modifies this
      ensures Value() == old(Value()).(failed := true)
    {
      failed := true;
    }

    method WriteMessage(su: Suite, scalar: Bytes, payload: Bytes) returns (r: Option<Step>)
      requires Proper(Value())
      modifies this, ss
      ensures var w := Written(su, old(Value()), scalar, payload);
              && r.Some? == w.Some?
              && (r.Some? ==> w.value == (Value(), r.value))
              && (r.None? ==> failed)
    {
      if failed {
        return None;
      }
      if initiator != (msg == 0) || msg > 1 {
        Fail();
        return None;
      }
      e := Some(scalar);
      var pub := Public(su, scalar);
      var ok := Mix(su, pub);
      if !ok {
        Fail();
        return None;
      }
      var ct := ss.DoEncryptAndHash(su, payload);
      // The cipher is fresh, so that it cannot have run out of nonces.
      assert ct.Some?;
      msg := msg + 1;
      return Some(Step(pub + ct.value, if msg == 2 then Some(Split(su, ss.Value())) else None));
    }

    method ReadMessage(su: Suite, message: Bytes) returns (r: Option<Step>)
      requires Proper(Value())
      modifies this, ss
      ensures var w := Read(su, old(Value()), message);
              && r.Some? == w.Some?
              && (r.Some? ==> w.value == (Value(), r.value))
              && (r.None? ==> failed)
    {
      if failed {
        return None;
      }
      if initiator == (msg == 0) || msg > 1 || |message| < KEY_SIZE {
        Fail();
        return None;
      }
      re := Some(message[..KEY_SIZE]);
      var ok := Mix(su, message[..KEY_SIZE]);
      if !ok {
        Fail();
        return None;
      }
      var pt := ss.DoDecryptAndHash(su, message[KEY_SIZE..]);
      if pt.None? {
        Fail();
        return None;
      }
      msg := msg + 1;
      return Some(Step(pt.value, if msg == 2 then Some(Split(su, ss.Value())) else None));
    }
  }

  /** A failed handshake stays failed, and a step keeps what the next one relies on. */
  lemma {:induction false} StepsKeepProper(su: Suite, hs: Hand, e: Bytes, payload: Bytes, message: Bytes)
    requires Proper(hs)
    ensures Proper(hs.(failed := true))
    ensures Written(su, hs.(failed := true), e, payload).None? && Read(su, hs.(failed := true), message).None?
    ensures Written(su, hs, e, payload).Some? ==> Proper(Written(su, hs, e, payload).value.0)
    ensures Read(su, hs, message).Some? ==> Proper(Read(su, hs, message).value.0)
  {
  }

  // ----- two parties -----

  /** The two sides before the message that w is to write: the same symmetric state and
      pre-shared key, and the keys exchanged so far. */
  ghost predicate InStep(su: Suite, w: Hand, r: Hand) {
    && !w.failed && !r.failed && w.msg == r.msg <= 1
    && w.initiator == (w.msg == 0) && r.initiator == !w.initiator
    && w.ss == r.ss && w.psk == r.psk
    && (w.msg == 1 ==> w.re.Some? && r.e.Some? && w.re == Some(Public(su, r.e.value)))
  }

  lemma {:induction false} FreshCipher(su: Suite, ss: Sym, input: Bytes)
    ensures MixKey(su, ss, input).cs.Some? && MixKey(su, ss, input).cs.value.n == 0
  {
  }

  lemma {:induction false} SameDh(su: Suite, a: Bytes, b: Bytes)
    requires Laws(su)
    ensures su.dh(a, Public(su, b)).Some? && su.dh(a, Public(su, b)) == su.dh(b, Public(su, a))
  {
    assert Multiplies(su, a, b, su.base);
  }

  /** What either side mixes in before the payload is the same, with a fresh cipher. */
  lemma {:induction false} SameMix(su: Suite, w: Hand, r: Hand, e: Bytes)
    requires Laws(su) && InStep(su, w, r)
    ensures var pub := Public(su, e);
            var x, y := Mixed(su, w.(e := Some(e)), pub), Mixed(su, r.(re := Some(pub)), pub);
            x.Some? && x == y && x.value.cs.Some? && x.value.cs.value.n == 0
  {
    var pub := Public(su, e);
    var ss := if w.msg == 0 then MixKeyAndHash(su, w.ss, w.psk) else w.ss;
    var s1 := MixKey(su, MixHash(su, ss, pub), pub);
    FreshCipher(su, MixHash(su, ss, pub), pub);
    if w.msg == 1 {
      SameDh(su, e, r.e.value);
      FreshCipher(su, s1, su.dh(e, w.re.value).value);
    }
  }

  lemma {:induction false} PayloadArrives(su: Suite, ss: Sym, payload: Bytes)
    requires Laws(su) && ss.cs.Some? && ss.cs.value.n == 0
    ensures var ct := EncryptAndHash(su, ss, payload);
            ct.Some? && DecryptAndHash(su, ss, ct.value.0) == Some((payload, ct.value.1))
  {
    assert Opens(su, ss.cs.value.key, 0, ss.h, payload);
  }

  /** A message written by one side is read by the other: the payload arrives and the two
      sides are in step again, or done with the same transport ciphers. */
  lemma {:induction false} MessageArrives(su: Suite, w: Hand, r: Hand, e: Bytes, payload: Bytes)
    requires Laws(su) && InStep(su, w, r) && Proper(w) && Proper(r)
    ensures var x := Written(su, w, e, payload);
            x.Some? &&
            var y := Read(su, r, x.value.1.out);
            && y.Some? && y.value.1.out == payload
            && x.value.0.ss == y.value.0.ss && x.value.1.ciphers == y.value.1.ciphers
            && (w.msg == 0 ==> InStep(su, y.value.0, x.value.0) && x.value.1.ciphers.None?)
            && (w.msg == 1 ==> x.value.1.ciphers.Some? && x.value.1.ciphers.value.0.n == 0
                               && x.value.1.ciphers.value.1.n == 0)
  {
    var pub := Public(su, e);
    assert |pub| == KEY_SIZE;
    SameMix(su, w, r, e);
    var s1 := Mixed(su, w.(e := Some(e)), pub).value;
    PayloadArrives(su, s1, payload);
    var ct := EncryptAndHash(su, s1, payload).value;
    var message := pub + ct.0;
    assert message[..KEY_SIZE] == pub && message[KEY_SIZE..] == ct.0;
  }

  // ----- what the keys depend on -----

  /** Two derived keys are equal only when they were derived from the same, in the same place. */
  lemma {:induction false} HkdfSeparates(su: Suite, temp: Bytes, i: nat, temp': Bytes, j: nat)
    requires Free(su) && 1 <= i <= 3 && 1 <= j <= 3 && HkdfAt(su, temp, i) == HkdfAt(su, temp', j)
    ensures temp == temp' && i == j
  {
    var x := if i == 1 then [] else HkdfAt(su, temp, i - 1);
    var y := if j == 1 then [] else HkdfAt(su, temp', j - 1);
    assert HmacSeparates(su, temp, x + [i], temp', y + [j]);
    assert (x + [i])[|x|] == i && (y + [j])[|y|] == j;
  }

  lemma {:induction false} HkdfIs(su: Suite, ck: Bytes, input: Bytes)
    ensures var temp := su.hmac(ck, input);
            && Hkdf(su, ck, input, 2) == [HkdfAt(su, temp, 1), HkdfAt(su, temp, 2)]
            && Hkdf(su, ck, input, 3) == [HkdfAt(su, temp, 1), HkdfAt(su, temp, 2), HkdfAt(su, temp, 3)]
  {
    assert Hkdf(su, ck, input, 1) == [HkdfAt(su, su.hmac(ck, input), 1)];
  }

  /** The two transport keys differ, and keys of different chaining keys all do. */
  lemma {:induction false} SplitSeparates(su: Suite, ss: Sym, ss': Sym)
    requires Free(su)
    ensures var (x, y), (x', y') := Split(su, ss), Split(su, ss');
            && x.key != y.key && x.key != y'.key
            && (x.key == x'.key || y.key == y'.key ==> ss.ck == ss'.ck)
  {
    HkdfIs(su, ss.ck, []);
    HkdfIs(su, ss'.ck, []);
    var temp, temp' := su.hmac(ss.ck, []), su.hmac(ss'.ck, []);
    if HkdfAt(su, temp, 1) == HkdfAt(su, temp, 2) {
      HkdfSeparates(su, temp, 1, temp, 2);
    }
    if HkdfAt(su, temp, 1) == HkdfAt(su, temp', 2) {
      HkdfSeparates(su, temp, 1, temp', 2);
    }
    if HkdfAt(su, temp, 1) == HkdfAt(su, temp', 1) {
      HkdfSeparates(su, temp, 1, temp', 1);
    }
    if HkdfAt(su, temp, 2) == HkdfAt(su, temp', 2) {
      HkdfSeparates(su, temp, 2, temp', 2);
    }
    assert HmacSeparates(su, ss.ck, [], ss'.ck, []);
  }

  /** The chaining key and the cipher key each determine what was mixed in, and before. */
  lemma {:induction false} MixKeySeparates(su: Suite, ss: Sym, x: Bytes, ss': Sym, y: Bytes)
    requires Free(su)
    requires var s1, s2 := MixKey(su, ss, x), MixKey(su, ss', y); s1.ck == s2.ck || s1.cs.value.key == s2.cs.value.key
    ensures ss.ck == ss'.ck && x == y
  {
    HkdfIs(su, ss.ck, x);
    HkdfIs(su, ss'.ck, y);
    var temp, temp' := su.hmac(ss.ck, x), su.hmac(ss'.ck, y);
    if HkdfAt(su, temp, 1) == HkdfAt(su, temp', 1) {
      HkdfSeparates(su, temp, 1, temp', 1);
    } else {
      HkdfSeparates(su, temp, 2, temp', 2);
    }
    assert HmacSeparates(su, ss.ck, x, ss'.ck, y);
  }

  lemma {:induction false} MixKeyAndHashSeparates(su: Suite, ss: Sym, x: Bytes, ss': Sym, y: Bytes)
    requires Free(su)
    requires var s1, s2 := MixKeyAndHash(su, ss, x), MixKeyAndHash(su, ss', y);
             s1.ck == s2.ck || (ss.h == ss'.h && s1.h == s2.h)
    ensures ss.ck == ss'.ck && x == y
  {
    HkdfIs(su, ss.ck, x);
    HkdfIs(su, ss'.ck, y);
    var temp, temp' := su.hmac(ss.ck, x), su.hmac(ss'.ck, y);
    if MixKeyAndHash(su, ss, x).ck == MixKeyAndHash(su, ss', y).ck {
      HkdfSeparates(su, temp, 1, temp', 1);
    } else {
      assert ShaSeparates(su, ss.h + HkdfAt(su, temp, 2), ss.h + HkdfAt(su, temp', 2));
      SameBack(ss.h, HkdfAt(su, temp, 2), HkdfAt(su, temp', 2));
      HkdfSeparates(su, temp, 2, temp', 2);
    }
    assert HmacSeparates(su, ss.ck, x, ss'.ck, y);
  }

  /** What a handshake is made of: the pre-shared key, the two ephemeral keys, the payload of
      the first message as it was sent, and the shared point. */
  datatype Terms = Terms(psk: Bytes, first: Bytes, sent: Bytes, second: Bytes, shared: Bytes)

  /** The state the first payload is encrypted in. */
  function AtFirst(su: Suite, psk: Bytes, first: Bytes): Sym {
    MixKey(su, MixHash(su, MixKeyAndHash(su, NewSym(su, []), psk), first), first)
  }

  /** The state the second payload is encrypted in. */
  function AtSecond(su: Suite, t: Terms): Sym {
    var ss := MixHash(su, MixHash(su, AtFirst(su, t.psk, t.first), t.sent), t.second);
    MixKey(su, MixKey(su, ss, t.second), t.shared)
  }

  /** The transport ciphers: for the initiator's messages, and for the responder's. */
  function Transport(su: Suite, t: Terms): (Cipher, Cipher) {
    Split(su, AtSecond(su, t))
  }

  /** The key and the associated data of the second payload determine all that came before. */
  lemma {:induction false} SecondBinds(su: Suite, t: Terms, u: Terms)
    requires Free(su)
    requires AtSecond(su, t).ck == AtSecond(su, u).ck || AtSecond(su, t).cs == AtSecond(su, u).cs
    ensures t.psk == u.psk && t.first == u.first && t.second == u.second && t.shared == u.shared
    ensures AtSecond(su, t).h == AtSecond(su, u).h ==> t == u
  {
    var x, y := MixHash(su, AtFirst(su, t.psk, t.first), t.sent), MixHash(su, AtFirst(su, u.psk, u.first), u.sent);
    var x1, y1 := MixHash(su, x, t.second), MixHash(su, y, u.second);
    MixKeySeparates(su, MixKey(su, x1, t.second), t.shared, MixKey(su, y1, u.second), u.shared);
    MixKeySeparates(su, x1, t.second, y1, u.second);
    FirstBinds(su, t.psk, t.first, u.psk, u.first);
    if AtSecond(su, t).h == AtSecond(su, u).h {
      var h := AtFirst(su, t.psk, t.first).h;
      assert ShaSeparates(su, x.h + t.second, y.h + u.second);
      SameFront(x.h, y.h, t.second);
      assert ShaSeparates(su, h + t.sent, h + u.sent);
      SameBack(h, t.sent, u.sent);
    }
  }

  lemma {:induction false} SameFront(a: Bytes, b: Bytes, c: Bytes)
    ensures a + c == b + c ==> a == b
  {
    if a + c == b + c {
      assert (a + c)[..|a|] == a && (b + c)[..|b|] == b;
    }
  }

  lemma {:induction false} SameBack(a: Bytes, b: Bytes, c: Bytes)
    ensures a + b == a + c ==> b == c
  {
    assert (a + b)[|a|..] == b && (a + c)[|a|..] == c;
  }

  lemma {:induction false} FirstBinds(su: Suite, psk: Bytes, first: Bytes, psk': Bytes, first': Bytes)
    requires Free(su) && AtFirst(su, psk, first).ck == AtFirst(su, psk', first').ck
    ensures psk == psk' && first == first'
  {
    var s0 := NewSym(su, []);
    var x, y := MixKeyAndHash(su, s0, psk), MixKeyAndHash(su, s0, psk');
    MixKeySeparates(su, MixHash(su, x, first), first, MixHash(su, y, first'), first');
    MixKeyAndHashSeparates(su, s0, psk, s0, psk');
  }

  lemma {:induction false} SameTail(a: Bytes, b: Bytes, c: Bytes, d: Bytes)
    requires a + b == c + d && |b| == |d|
    ensures a == c && b == d
  {
    assert a == (a + b)[..|a|] && c == (c + d)[..|c|];
    assert b == (a + b)[|a|..] && d == (c + d)[|c|..];
  }

  /** The associated data of the second payload by itself determines the pre-shared key and all
      that has been sent. */
  lemma {:induction false} HashBinds(su: Suite, t: Terms, u: Terms)
    requires Free(su) && AtSecond(su, t).h == AtSecond(su, u).h
    requires |t.first| == |u.first| && |t.sent| == |u.sent| && |t.second| == |u.second|
    ensures t.psk == u.psk && t.first == u.first && t.sent == u.sent && t.second == u.second
  {
    var s0 := NewSym(su, []);
    var x, y := MixKeyAndHash(su, s0, t.psk), MixKeyAndHash(su, s0, u.psk);
    var x1, y1 := AtFirst(su, t.psk, t.first).h, AtFirst(su, u.psk, u.first).h;
    var x2, y2 := su.sha(x1 + t.sent), su.sha(y1 + u.sent);
    assert ShaSeparates(su, x2 + t.second, y2 + u.second);
    SameTail(x2, t.second, y2, u.second);
    assert ShaSeparates(su, x1 + t.sent, y1 + u.sent);
    SameTail(x1, t.sent, y1, u.sent);
    assert ShaSeparates(su, x.h + t.first, y.h + u.first);
    SameTail(x.h, t.first, y.h, u.first);
    MixKeyAndHashSeparates(su, s0, t.psk, s0, u.psk);
  }

  /** Main result for the keys: the two directions have different keys, and handshakes that
      differ in the pre-shared key, an ephemeral key or the shared point have no key in common. */
  lemma {:induction false} KeysApart(su: Suite, t: Terms, u: Terms)
    requires Free(su)
    ensures var (x, y), (x', y') := Transport(su, t), Transport(su, u);
            && x.key != y.key && x.key != y'.key && y.key != x'.key
            && (x.key == x'.key || y.key == y'.key ==>
                  t.psk == u.psk && t.first == u.first && t.second == u.second && t.shared == u.shared)
  {
    SplitSeparates(su, AtSecond(su, t), AtSecond(su, u));
    SplitSeparates(su, AtSecond(su, u), AtSecond(su, t));
    if AtSecond(su, t).ck == AtSecond(su, u).ck {
      SecondBinds(su, t, u);
    }
  }

  /** What a side has mixed in after the first message. */
  ghost predicate Began(su: Suite, hs: Hand, first: Bytes, sent: Bytes) {
    var ss := MixHash(su, AtFirst(su, hs.psk, first), sent);
    hs.msg == 1 && hs.ss.ck == ss.ck && hs.ss.h == ss.h
  }

  lemma {:induction false} MixedSecond(su: Suite, hs: Hand, first: Bytes, sent: Bytes, pub: Bytes)
    requires Began(su, hs, first, sent) && hs.e.Some? && hs.re.Some?
    ensures var dh := su.dh(hs.e.value, hs.re.value);
            Mixed(su, hs, pub) ==
            if dh.None? then None else Some(AtSecond(su, Terms(hs.psk, first, sent, pub, dh.value)))
  {
  }

  lemma {:induction false} WrittenSecond(su: Suite, hs: Hand, first: Bytes, sent: Bytes, e: Bytes, payload: Bytes)
    requires Proper(hs) && Began(su, hs, first, sent) && Written(su, hs, e, payload).Some?
    ensures hs.re.Some? && su.dh(e, hs.re.value).Some?
    ensures Written(su, hs, e, payload).value.1.ciphers ==
            Some(Transport(su, Terms(hs.psk, first, sent, Public(su, e), su.dh(e, hs.re.value).value)))
  {
    MixedSecond(su, hs.(e := Some(e)), first, sent, Public(su, e));
  }

  lemma {:induction false} ReadSecond(su: Suite, hs: Hand, first: Bytes, sent: Bytes, m: Bytes)
    requires Proper(hs) && Began(su, hs, first, sent) && Read(su, hs, m).Some?
    ensures |m| >= KEY_SIZE && hs.e.Some? && su.dh(hs.e.value, m[..KEY_SIZE]).Some?
    ensures Read(su, hs, m).value.1.ciphers ==
            Some(Transport(su, Terms(hs.psk, first, sent, m[..KEY_SIZE], su.dh(hs.e.value, m[..KEY_SIZE]).value)))
  {
    MixedSecond(su, hs.(re := Some(m[..KEY_SIZE])), first, sent, m[..KEY_SIZE]);
  }

  /** A responder that has read the first message, and one that has finished. */
  lemma {:induction false} ResponderTerms(su: Suite, psk: Bytes, m1: Bytes, e: Bytes, payload: Bytes)
    requires NewHand(su, false, psk).Some? && Read(su, NewHand(su, false, psk).value, m1).Some?
    ensures var y := Read(su, NewHand(su, false, psk).value, m1).value.0;
            && |m1| >= KEY_SIZE && Proper(y)
            && (Written(su, y, e, payload).Some? ==>
                  su.dh(e, m1[..KEY_SIZE]).Some? &&
                  Written(su, y, e, payload).value.1.ciphers ==
                  Some(Transport(su, Terms(psk, m1[..KEY_SIZE], m1[KEY_SIZE..], Public(su, e),
                                           su.dh(e, m1[..KEY_SIZE]).value))))
  {
    var hs := NewHand(su, false, psk).value;
    var y := Read(su, hs, m1).value.0;
    assert Mixed(su, hs.(re := Some(m1[..KEY_SIZE])), m1[..KEY_SIZE]) == Some(AtFirst(su, psk, m1[..KEY_SIZE]));
    assert Began(su, y, m1[..KEY_SIZE], m1[KEY_SIZE..]);
    if Written(su, y, e, payload).Some? {
      WrittenSecond(su, y, m1[..KEY_SIZE], m1[KEY_SIZE..], e, payload);
    }
  }

  /** An initiator that has written the first message, and one that has finished. */
  lemma {:induction false} InitiatorTerms(su: Suite, psk: Bytes, e: Bytes, payload: Bytes, m2: Bytes)
    requires Laws(su) && NewHand(su, true, psk).Some?
    requires Written(su, NewHand(su, true, psk).value, e, payload).Some?
    ensures var x := Written(su, NewHand(su, true, psk).value, e, payload).value;
            && |x.1.out| >= KEY_SIZE && Proper(x.0)
            && (Read(su, x.0, m2).Some? ==>
                  && |m2| >= KEY_SIZE && su.dh(e, m2[..KEY_SIZE]).Some?
                  && Read(su, x.0, m2).value.1.ciphers ==
                     Some(Transport(su, Terms(psk, Public(su, e), x.1.out[KEY_SIZE..], m2[..KEY_SIZE],
                                              su.dh(e, m2[..KEY_SIZE]).value))))
  {
    var hs := NewHand(su, true, psk).value;
    var x, pub := Written(su, hs, e, payload).value, Public(su, e);
    assert Mixed(su, hs.(e := Some(e)), pub) == Some(AtFirst(su, psk, pub));
    assert |pub| == KEY_SIZE && x.1.out[KEY_SIZE..] == EncryptAndHash(su, AtFirst(su, psk, pub), payload).value.0;
    assert Began(su, x.0, pub, x.1.out[KEY_SIZE..]);
    if Read(su, x.0, m2).Some? {
      ReadSecond(su, x.0, pub, x.1.out[KEY_SIZE..], m2);
    }
  }

  /** Both sides of a whole handshake, with the same pre-shared key. */
  lemma {:induction false} HandshakeAgrees(su: Suite, psk: Bytes, e1: Bytes, e2: Bytes)
    requires Laws(su) && |psk| == KEY_SIZE
    ensures var i, r := NewHand(su, true, psk).value, NewHand(su, false, psk).value;
            var x1 := Written(su, i, e1, []);
            x1.Some? &&
            var y1 := Read(su, r, x1.value.1.out);
            y1.Some? && Proper(x1.value.0) && Proper(y1.value.0) &&
            var y2 := Written(su, y1.value.0, e2, []);
            y2.Some? &&
            var x2 := Read(su, x1.value.0, y2.value.1.out);
            x2.Some? && x2.value.1.ciphers.Some? && x2.value.1.ciphers == y2.value.1.ciphers
            && x2.value.1.ciphers.value.0.n == 0 && x2.value.1.ciphers.value.1.n == 0
            && (Free(su) ==> x2.value.1.ciphers.value.0.key != x2.value.1.ciphers.value.1.key)
  {
    var i, r := NewHand(su, true, psk).value, NewHand(su, false, psk).value;
    MessageArrives(su, i, r, e1, []);
    var x1 := Written(su, i, e1, []).value;
    var y1 := Read(su, r, x1.1.out).value;
    StepsKeepProper(su, i, e1, [], []);
    StepsKeepProper(su, r, e1, [], x1.1.out);
    MessageArrives(su, y1.0, x1.0, e2, []);
    if Free(su) {
      var y2 := Written(su, y1.0, e2, []).value;
      SplitSeparates(su, y2.0.ss, y2.0.ss);
    }
  }
}
