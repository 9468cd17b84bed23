/** The CPace password-authenticated key exchange. */
module Cpace {
  import opened Common
  import opened Encodings
  import opened Suite

  const DSI_SID: Bytes := [67, 80, 97, 99, 101, 83, 105, 100, 79, 117, 116, 112, 117, 116]
  const DSI_MAC: Bytes := [67, 80, 97, 99, 101, 77, 97, 99]

  /** One party's state during an exchange. */
  datatype Party = Party(role: Role, sid: Bytes, ad: Bytes, msg: Bytes, priv: Option<Bytes>,
                         sidOutput: Option<Bytes>, tag: Option<Bytes>, peerTag: Option<Bytes>)

  function Generator(su: Suite, password: Bytes, ci: Bytes, sid: Bytes): Bytes {
    su.element(GeneratorString(password, ci, sid))
  }

  function Started(su: Suite, role: Role, password: Bytes, ci: Bytes, sid: Bytes, ad: Bytes, scalar: Bytes)
    : Option<Party>
  {
    var y := su.dh(scalar, Generator(su, password, ci, sid));
    if y.None? then None else Some(Party(role, sid, ad, y.value, Some(scalar), None, None, None))
  }

  /** The transcript lists the initiator first. */
  function Ordered(st: Party, msg: Bytes, ad: Bytes): (Bytes, Bytes, Bytes, Bytes) {
    if st.role == Responder then (msg, ad, st.msg, st.ad) else (st.msg, st.ad, msg, ad)
  }

  function SessionKey(su: Suite, st: Party, k: Bytes, msg: Bytes, ad: Bytes): Bytes {
    var (ya, ada, yb, adb) := Ordered(st, msg, ad);
    su.hash(SessionKeyInput(st.role, st.sid, k, ya, ada, yb, adb))
  }

  function MacKey(su: Suite, sid: Bytes, isk: Bytes): Bytes {
    su.hash(DSI_MAC + sid + isk)
  }

  function TagOf(su: Suite, key: Bytes, msg: Bytes, ad: Bytes): Bytes {
    su.mac(key, LvCat([msg, ad]))
  }

  /** The exchange after the peer's message, and the session key unless it failed. */
  function Finished(su: Suite, st: Party, msg: Bytes, ad: Bytes): (Party, Option<Bytes>) {
    if st.priv.None? then (st, None)
    else
      var used := st.(priv := None);
      if msg == st.msg then (used, None)
      else
        var k := su.dh(st.priv.value, msg);
        if k.None? then (used, None)
        else
          var (ya, ada, yb, adb) := Ordered(st, msg, ad);
          var isk := SessionKey(su, st, k.value, msg, ad);
          var key := MacKey(su, st.sid, isk);
          (used.(sidOutput := Some(su.hash(DSI_SID + Transcript(st.role, ya, ada, yb, adb))),
                 tag := Some(TagOf(su, key, st.msg, st.ad)),
                 peerTag := Some(TagOf(su, key, msg, ad))),
           Some(isk))
  }

  function Verified(st: Party, tag: Bytes): bool {
    st.peerTag.Some? && tag == st.peerTag.value
  }

  /** The exchange, updated in place. */
  class Exchange {
    const role: Role
    const sid: Bytes
    const ad: Bytes
    const msg: Bytes
    var priv: Option<Bytes>
    var sidOutput: Option<Bytes>
    var tag: Option<Bytes>
    var peerTag: Option<Bytes>

    constructor (su: Suite, r: Role, password: Bytes, ci: Bytes, s: Bytes, a: Bytes, scalar: Bytes)
      requires Started(su, r, password, ci, s, a, scalar).Some?
      ensures Some(Value()) == Started(su, r, password, ci, s, a, scalar)
    {
      role, sid, ad, msg := r, s, a, su.dh(scalar, Generator(su, password, ci, s)).value;
      priv, sidOutput, tag, peerTag := Some(scalar), None, None, None;
    }

    function Value(): Party
      reads this
    {
      Party(role, sid, ad, msg, priv, sidOutput, tag, peerTag)
    }

    method Finish(su: Suite, peerMsg: Bytes, peerAd: Bytes) returns (key: Option<Bytes>)
      modifies this
      ensures (Value(), key) == Finished(su, old(Value()), peerMsg, peerAd)
    {
      if priv.None? {
        return None;
      }
      var scalar := priv.value;
      priv := None;
      if peerMsg == msg {
        return None;
      }
      var k := su.dh(scalar, peerMsg);
      if k.None? {
        return None;
      }
      var ya, ada, yb, adb := msg, ad, peerMsg, peerAd;
      if role == Responder {
        ya, ada, yb, adb := yb, adb, ya, ada;
      }
      var b := LvCatTo([], [DSI_ISK, sid, k.value]);
      b := TranscriptTo(b, role, ya, ada, yb, adb);
      assert b == SessionKeyInput(role, sid, k.value, ya, ada, yb, adb) by {
        assert [] + LvCat([DSI_ISK, sid, k.value]) == LvCat([DSI_ISK, sid, k.value]);
      }
      var isk := su.hash(b);
      b := TranscriptTo(DSI_SID, role, ya, ada, yb, adb);
      sidOutput := Some(su.hash(b));
      var macKey := su.hash(DSI_MAC + sid + isk);
      var m := LvCatTo([], [msg, ad]);
      assert m == LvCat([msg, ad]);
      tag := Some(su.mac(macKey, m));
      m := LvCatTo([], [peerMsg, peerAd]);
      assert m == LvCat([peerMsg, peerAd]);
      peerTag := Some(su.mac(macKey, m));
      return Some(isk);
    }

    method Verify(t: Bytes) returns (ok: bool)
      ensures ok == Verified(Value(), t)
    {
      if peerTag.None? {
        return false;
      }
      return t == peerTag.value;
    }
  }

  /** A second use of the secret scalar is refused. */
  lemma {:induction false} FinishOnce(su: Suite, st: Party, m: Bytes, ad: Bytes, m': Bytes, ad': Bytes)
    ensures var (st1, _) := Finished(su, st, m, ad);
            st1.priv.None? && Finished(su, st1, m', ad') == (st1, None)
  {
  }

  // ----- two parties -----

  /** What a started party sends. */
  function Share(su: Suite, password: Bytes, ci: Bytes, sid: Bytes, scalar: Bytes): Bytes {
    var y := su.dh(scalar, Generator(su, password, ci, sid));
    if y.None? then [] else y.value
  }

  /** A party that has started and then finished with the given message. */
  ghost predicate Completed(su: Suite, st: Party, key: Bytes, role: Role, password: Bytes, ci: Bytes, sid: Bytes,
                            ad: Bytes, scalar: Bytes, m: Bytes, mad: Bytes) {
    var s := Started(su, role, password, ci, sid, ad, scalar);
    s.Some? && Finished(su, s.value, m, mad) == (st, Some(key))
  }

  /** The shared point is the same when passwords, channels and sessions are, and otherwise
      differs. */
  lemma {:induction false} SharedPoint(su: Suite, p: Bytes, ci: Bytes, sid: Bytes, a: Bytes, q: Bytes, ci': Bytes,
                                       sid': Bytes, b: Bytes)
    requires Laws(su)
    ensures var x, y := su.dh(a, Share(su, q, ci', sid', b)), su.dh(b, Share(su, p, ci, sid, a));
            && x.Some? && y.Some?
            && (p == q && ci == ci' && sid == sid' ==> x == y)
            && (Free(su) && x == y ==> p == q && ci == ci' && sid == sid')
  {
    var g, h := Generator(su, p, ci, sid), Generator(su, q, ci', sid');
    assert su.dh(a, g).Some? && su.dh(b, g).Some? && su.dh(a, h).Some? && su.dh(b, h).Some?;
    assert Multiplies(su, a, b, g) && Multiplies(su, a, b, h);
    if Free(su) && su.dh(a, su.dh(b, h).value) == su.dh(b, su.dh(a, g).value) {
      assert Cancels(su, a, su.dh(b, h).value, su.dh(b, g).value);
      assert Cancels(su, b, h, g);
      assert ElementSeparates(su, GeneratorString(q, ci', sid'), GeneratorString(p, ci, sid));
      GeneratorStringInjective(q, ci', sid', p, ci, sid);
    }
  }

  /** With equal passwords and each other's messages, both parties finish with the same
      key and session identifier, and accept each other's tags. */
  lemma {:induction false} MatchedParties(su: Suite, p: Bytes, ci: Bytes, sid: Bytes, ada: Bytes, adb: Bytes,
                                          a: Bytes, b: Bytes)
    requires Laws(su) && Share(su, p, ci, sid, a) != Share(su, p, ci, sid, b)
    ensures var ya, yb := Share(su, p, ci, sid, a), Share(su, p, ci, sid, b);
            var s, t := Started(su, Initiator, p, ci, sid, ada, a), Started(su, Responder, p, ci, sid, adb, b);
            && s.Some? && t.Some?
            && (var (s1, key1) := Finished(su, s.value, yb, adb);
                var (t1, key2) := Finished(su, t.value, ya, ada);
                && key1.Some? && key1 == key2 && s1.sidOutput == t1.sidOutput
                && s1.tag.Some? && t1.tag.Some?
                && Verified(s1, t1.tag.value) && Verified(t1, s1.tag.value))
  {
    SharedPoint(su, p, ci, sid, a, p, ci, sid, b);
  }

  /** An initiator accepts a tag that a responder made only if they share the password, the
      channel and the session, and each has the message the other sent, whoever carried the
      messages. Session identifiers are of one length. */
  lemma {:induction false} AcceptedTagBinds(su: Suite, s: Party, k: Bytes, p: Bytes, ci: Bytes, sid: Bytes, ada: Bytes,
                                            a: Bytes, m: Bytes, mad: Bytes, t: Party, l: Bytes, q: Bytes, ci': Bytes,
                                            sid': Bytes, adb: Bytes, b: Bytes, n: Bytes, nad: Bytes)
    requires Laws(su) && Free(su) && |sid| == |sid'|
    requires Completed(su, s, k, Initiator, p, ci, sid, ada, a, m, mad)
    requires Completed(su, t, l, Responder, q, ci', sid', adb, b, n, nad)
    requires Verified(s, t.tag.value) || Verified(t, s.tag.value)
    ensures p == q && ci == ci' && sid == sid'
    ensures k == l && m == t.msg && n == s.msg && mad == adb && nad == ada
  {
    var x, y := su.dh(a, m).value, su.dh(b, n).value;
    assert k == su.hash(SessionKeyInput(Initiator, sid, x, s.msg, ada, m, mad));
    assert l == su.hash(SessionKeyInput(Responder, sid', y, n, nad, t.msg, adb));
    if Verified(s, t.tag.value) {
      assert MacSeparates(su, MacKey(su, sid, k), LvCat([m, mad]), MacKey(su, sid', l), LvCat([t.msg, adb]));
    } else {
      assert MacSeparates(su, MacKey(su, sid, k), LvCat([s.msg, ada]), MacKey(su, sid', l), LvCat([n, nad]));
    }
    SameSessionKey(su, sid, k, sid', l);
    assert HashSeparates(su, SessionKeyInput(Initiator, sid, x, s.msg, ada, m, mad),
                         SessionKeyInput(Initiator, sid', y, n, nad, t.msg, adb));
    assert SessionKeyInput(Responder, sid', y, n, nad, t.msg, adb) ==
           SessionKeyInput(Initiator, sid', y, n, nad, t.msg, adb);
    SessionKeyInputUnique(Initiator, sid, x, s.msg, ada, m, mad, Initiator, sid', y, n, nad, t.msg, adb);
    SharedPoint(su, p, ci, sid, a, q, ci', sid', b);
  }

  /** Equal session identifiers are those of the same messages. */
  lemma {:induction false} SessionIdBinds(su: Suite, s: Party, k: Bytes, p: Bytes, ci: Bytes, sid: Bytes, ada: Bytes,
                                          a: Bytes, m: Bytes, mad: Bytes, t: Party, l: Bytes, q: Bytes, ci': Bytes,
                                          sid': Bytes, adb: Bytes, b: Bytes, n: Bytes, nad: Bytes, r: Role, r': Role)
    requires Free(su) && r.Symmetric? == r'.Symmetric? && s.sidOutput == t.sidOutput
    requires Completed(su, s, k, r, p, ci, sid, ada, a, m, mad)
    requires Completed(su, t, l, r', q, ci', sid', adb, b, n, nad)
    ensures var x, y := Started(su, r, p, ci, sid, ada, a).value, Started(su, r', q, ci', sid', adb, b).value;
            var (ya, yaa, yb, ybb), (za, zaa, zb, zbb) := Ordered(x, m, mad), Ordered(y, n, nad);
            SameMessages(r, ya, yaa, yb, ybb, za, zaa, zb, zbb)
  {
    var x, y := Started(su, r, p, ci, sid, ada, a).value, Started(su, r', q, ci', sid', adb, b).value;
    var (ya, yaa, yb, ybb) := Ordered(x, m, mad);
    var (za, zaa, zb, zbb) := Ordered(y, n, nad);
    var u, v := Transcript(r, ya, yaa, yb, ybb), Transcript(r', za, zaa, zb, zbb);
    assert HashSeparates(su, DSI_SID + u, DSI_SID + v);
    assert (DSI_SID + u)[|DSI_SID|..] == u && (DSI_SID + v)[|DSI_SID|..] == v;
    if r.Symmetric? {
      SymmetricTranscriptUnique(ya, yaa, yb, ybb, za, zaa, zb, zbb);
    } else {
      OrderedTranscriptUnique(ya, yaa, yb, ybb, za, zaa, zb, zbb);
    }
  }

  lemma {:induction false} SameSessionKey(su: Suite, sid: Bytes, k: Bytes, sid': Bytes, l: Bytes)
    requires Free(su) && |sid| == |sid'| && MacKey(su, sid, k) == MacKey(su, sid', l)
    ensures sid == sid' && k == l
  {
    assert HashSeparates(su, DSI_MAC + sid + k, DSI_MAC + sid' + l);
    SplitAt(DSI_MAC, sid, k, sid', l);
  }

  lemma {:induction false} SplitAt(d: Bytes, a: Bytes, b: Bytes, a': Bytes, b': Bytes)
    requires |a| == |a'| && d + a + b == d + a' + b'
    ensures a == a' && b == b'
  {
    var n := |d|;
    assert a == (d + a + b)[n..n + |a|] && a' == (d + a' + b')[n..n + |a|];
    assert b == (d + a + b)[n + |a|..] && b' == (d + a' + b')[n + |a|..];
  }

  /** No party accepts a tag made in its own role, its own included: the check for one's own
      message is what rules this out. */
  lemma {:induction false} NoSelfConfirmation(su: Suite, role: Role, s: Party, k: Bytes, p: Bytes, ada: Bytes, a: Bytes,
                                              m: Bytes, mad: Bytes, t: Party, l: Bytes, q: Bytes, adb: Bytes,
                                              b: Bytes, n: Bytes, nad: Bytes, ci: Bytes, sid: Bytes)
    requires Laws(su) && Free(su) && role != Symmetric
    requires Completed(su, s, k, role, p, ci, sid, ada, a, m, mad)
    requires Completed(su, t, l, role, q, ci, sid, adb, b, n, nad)
    ensures !Verified(s, t.tag.value)
  {
    if Verified(s, t.tag.value) {
      var x, y := su.dh(a, m).value, su.dh(b, n).value;
      assert MacSeparates(su, MacKey(su, sid, k), LvCat([m, mad]), MacKey(su, sid, l), LvCat([t.msg, adb]));
      SameSessionKey(su, sid, k, sid, l);
      LvCatInjective([m, mad], [t.msg, adb]);
      assert [m, mad][0] == [t.msg, adb][0];
      if role == Initiator {
        assert HashSeparates(su, SessionKeyInput(role, sid, x, s.msg, ada, m, mad),
                             SessionKeyInput(role, sid, y, t.msg, adb, n, nad));
        SessionKeyInputUnique(role, sid, x, s.msg, ada, m, mad, role, sid, y, t.msg, adb, n, nad);
      } else {
        assert HashSeparates(su, SessionKeyInput(role, sid, x, m, mad, s.msg, ada),
                             SessionKeyInput(role, sid, y, n, nad, t.msg, adb));
        SessionKeyInputUnique(role, sid, x, m, mad, s.msg, ada, role, sid, y, n, nad, t.msg, adb);
      }
    }
  }
}
