/** Known answers: the test vectors of the CPace draft (draft-irtf-cfrg-cpace-21) and the layouts
    that the protocol documents. */
module Vectors {
  import opened Common
  import Cpace
  import opened Encodings
  import Noise
  import Packets
  import Secure
  import Stream
  import opened Suite

  /** Appendix A.1.2. */
  lemma {:induction false} PrependLenAnswers(v: Bytes)
    ensures PrependedLen([]) == [0]
    ensures PrependedLen([0x31, 0x32, 0x33, 0x34]) == [4, 0x31, 0x32, 0x33, 0x34]
    ensures |v| == 127 ==> PrependedLen(v) == [0x7f] + v
    ensures |v| == 128 ==> PrependedLen(v) == [0x80, 0x01] + v
  {
    assert LenBytes(1) == [1];
  }

  /** Appendix A.1.4. */
  lemma {:induction false} LvCatAnswer()
    ensures LvCat([[0x31, 0x32, 0x33, 0x34], [0x35], [], [0x36, 0x37, 0x38]]) ==
            [4, 0x31, 0x32, 0x33, 0x34, 1, 0x35, 0, 3, 0x36, 0x37, 0x38]
  {
    var a, b, d: Bytes := [0x31, 0x32, 0x33, 0x34], [0x35], [0x36, 0x37, 0x38];
    assert [a, b, [], d][1..] == [b, [], d] && [b, [], d][1..] == [[], d] && [[], d][1..] == [d] && [d][1..] == [];
    assert LvCat([d]) == [3, 0x36, 0x37, 0x38];
    assert LvCat([[], d]) == [0] + LvCat([d]);
    assert LvCat([b, [], d]) == [1, 0x35] + LvCat([[], d]);
  }

  const ABCD: Bytes := [0x41, 0x42, 0x43, 0x44]
  const BCD: Bytes := [0x42, 0x43, 0x44]

  /** Appendix A.3.3. */
  lemma {:induction false} OCatAnswers()
    ensures OCat(ABCD, BCD) == [0x6f, 0x63] + BCD + ABCD
    ensures OCat(BCD, ABCD + [0x45]) == [0x6f, 0x63] + BCD + (ABCD + [0x45])
  {
    assert ABCD[0] < BCD[0] && (ABCD + [0x45])[0] < BCD[0];
  }

  const PARTY_A: Bytes := [0x50, 0x61, 0x72, 0x74, 0x79, 0x41]
  const PARTY_B: Bytes := [0x50, 0x61, 0x72, 0x74, 0x79, 0x42]

  lemma {:induction false} TwoValues(v: Bytes, w: Bytes)
    requires |v| < 128 && |w| < 128
    ensures LvCat([v, w]) == [|v|] + v + [|w|] + w
  {
    LvCatTwo(v, w);
    assert [|v|] + v + ([|w|] + w) == [|v|] + v + [|w|] + w;
  }

  /** Appendices A.3.5 and A.3.7: the messages of the two parties are 123 and 234. */
  lemma {:induction false} TranscriptAnswers()
    ensures var a, b: Bytes := [0x31, 0x32, 0x33], [0x32, 0x33, 0x34];
            && Transcript(Initiator, a, PARTY_A, b, PARTY_B) ==
               ([3] + a + [6] + PARTY_A) + ([3] + b + [6] + PARTY_B)
            && Transcript(Symmetric, a, PARTY_A, b, PARTY_B) ==
               [0x6f, 0x63] + ([3] + b + [6] + PARTY_B) + ([3] + a + [6] + PARTY_A)
  {
    var a, b: Bytes := [0x31, 0x32, 0x33], [0x32, 0x33, 0x34];
    TwoValues(a, PARTY_A);
    TwoValues(b, PARTY_B);
    var v, w := LvCat([a, PARTY_A]), LvCat([b, PARTY_B]);
    assert v[0] == w[0] == 3 && v[1] < w[1];
    assert v[1..][0] == v[1] && w[1..][0] == w[1];
    assert Less(v[1..], w[1..]);
  }

  /** Appendix B.1.1: what the generator is computed from, with CPace255 in front and zeros up to
      the end of the first block. */
  lemma {:induction false} GeneratorAnswer(prs: Bytes, ci: Bytes, sid: Bytes)
    requires |prs| == 8 && |ci| == 0x18 && |sid| == 0x10
    ensures GeneratorString(prs, ci, sid) ==
            [0x08, 0x43, 0x50, 0x61, 0x63, 0x65, 0x32, 0x35, 0x35] + [0x08] + prs + [0x6d] + Zeros(0x6d) + [0x18] + ci
            + [0x10] + sid
  {
    var z := Zeros(0x6d);
    TwoValues(DSI, prs);
    assert ZeroPad(prs) == 0x6d;
    assert [DSI, prs] + [z, ci, sid] == [DSI, prs, z, ci, sid];
    LvCatAppend([DSI, prs], [z, ci, sid]);
    ThreeValues(z, ci, sid);
  }

  lemma {:induction false} OneValue(v: Bytes)
    requires |v| < 128
    ensures LvCat([v]) == [|v|] + v
  {
    assert [v][1..] == [];
  }

  /** Appendix B.1.4: what the session key is computed from. */
  lemma {:induction false} SessionKeyAnswer(sid: Bytes, k: Bytes, ya: Bytes, ada: Bytes, yb: Bytes, adb: Bytes)
    requires |sid| == 0x10 && |k| == |ya| == |yb| == 0x20 && |ada| == |adb| == 3
    ensures SessionKeyInput(Initiator, sid, k, ya, ada, yb, adb) ==
            SessionKeyStart(sid, k) + (Sent(ya, ada) + Sent(yb, adb))
  {
    ThreeValues(DSI_ISK, sid, k);
    TwoValues(ya, ada);
    TwoValues(yb, adb);
    assert Transcript(Initiator, ya, ada, yb, adb) == Sent(ya, ada) + Sent(yb, adb);
    assert LvCat([DSI_ISK, sid, k]) == SessionKeyStart(sid, k);
  }

  const CPACE255_ISK: Bytes := [0x43, 0x50, 0x61, 0x63, 0x65, 0x32, 0x35, 0x35, 0x5f, 0x49, 0x53, 0x4b]

  function SessionKeyStart(sid: Bytes, k: Bytes): Bytes {
    [0x0c] + CPACE255_ISK + [0x10] + sid + [0x20] + k
  }

  function Sent(y: Bytes, ad: Bytes): Bytes {
    [0x20] + y + [3] + ad
  }

  lemma {:induction false} ThreeValues(u: Bytes, v: Bytes, w: Bytes)
    requires |u| < 128 && |v| < 128 && |w| < 128
    ensures LvCat([u, v, w]) == [|u|] + u + [|v|] + v + [|w|] + w
  {
    assert [u] + [v, w] == [u, v, w];
    LvCatAppend([u], [v, w]);
    OneValue(u);
    TwoValues(v, w);
    assert [|u|] + u + ([|v|] + v + [|w|] + w) == [|u|] + u + [|v|] + v + [|w|] + w;
  }

  /** Packets begin with two lengths of 32 bits, frames with one of 16, high byte first; nonces
      end with 64 bits, low byte first. */
  lemma {:induction false} Layouts(p: Packets.Packet)
    requires |p.js| == 0x12345 && |p.data| == 0x1020304
    ensures Packets.Coded(p) == [0, 0x01, 0x23, 0x45] + [0x01, 0x02, 0x03, 0x04] + p.js + p.data
    ensures Stream.Header(0x1234) == [0x12, 0x34]
    ensures Stream.Nonce(0x10203) == [0, 0, 0, 0] + [0x03, 0x02, 0x01, 0, 0, 0, 0, 0]
  {
    LowBytes();
  }

  lemma {:induction false} LowBytes()
    ensures Stream.LowFirst(0x10203, 8) == [0x03, 0x02, 0x01, 0, 0, 0, 0, 0]
  {
    assert Stream.LowFirst(0, 1) == [0];
    assert Stream.LowFirst(0, 2) == [0, 0];
    assert Stream.LowFirst(0, 3) == [0, 0, 0];
    assert Stream.LowFirst(0, 4) == [0, 0, 0, 0];
    assert Stream.LowFirst(0, 5) == [0, 0, 0, 0, 0];
    assert Stream.LowFirst(0x01, 6) == [0x01, 0, 0, 0, 0, 0];
    assert Stream.LowFirst(0x102, 7) == [0x02, 0x01, 0, 0, 0, 0, 0];
  }

  /** The bytes are those characters. */
  ghost predicate Spells(bs: Bytes, s: string) {
    |bs| == |s| && forall i :: 0 <= i < |s| ==> bs[i] == s[i] as int
  }

  /** The names that the parts of the handshake go by. */
  lemma {:induction false} NamesSpelled()
    ensures Spells(DSI, "CPace255") && Spells(DSI_ISK, "CPace255_ISK") && Spells(OC, "oc")
    ensures Spells(Cpace.DSI_SID, "CPaceSidOutput") && Spells(Cpace.DSI_MAC, "CPaceMac")
    ensures Spells(Noise.PROTOCOL_NAME, "Noise_NNpsk0_25519_ChaChaPoly_SHA256")
    ensures Spells(Secure.CHANNEL_ID, "rsc.io/cmd/mote tcp")
  {
    ChannelSpelled();
    IskSpelled();
    SidSpelled();
    ProtocolSpelled();
  }

  lemma {:induction false} ChannelSpelled()
    ensures Spells(Secure.CHANNEL_ID, "rsc.io/cmd/mote tcp")
  {
  }

  lemma {:induction false} IskSpelled()
    ensures Spells(DSI_ISK, "CPace255_ISK")
  {
    assert DSI_ISK == CPACE255_ISK;
  }

  lemma {:induction false} SidSpelled()
    ensures Spells(Cpace.DSI_SID, "CPaceSidOutput")
  {
  }

  lemma {:induction false} ProtocolSpelled()
    ensures Spells(Noise.PROTOCOL_NAME, "Noise_NNpsk0_25519_ChaChaPoly_SHA256")
  {
  }

  /** Sections 4.3 and 5.2 of the Noise framework, revision 34: each derived key is chained to the
      one before, and each has its own use. */
  lemma {:induction false} NoiseKeys(su: Suite, ss: Noise.Sym, x: Bytes)
    ensures var temp := su.hmac(ss.ck, x);
            var one := su.hmac(temp, [1]);
            var two := su.hmac(temp, one + [2]);
            var three := su.hmac(temp, two + [3]);
            && Noise.MixKey(su, ss, x) == ss.(ck := one, cs := Some(Noise.Cipher(two, 0)))
            && Noise.MixKeyAndHash(su, ss, x) ==
               Noise.Sym(one, su.sha(ss.h + two), Some(Noise.Cipher(three, 0)))
            && (x == [] ==> Noise.Split(su, ss) == (Noise.Cipher(one, 0), Noise.Cipher(two, 0)))
  {
    var temp := su.hmac(ss.ck, x);
    Noise.HkdfIs(su, ss.ck, x);
    assert [] + [1] == [1];
    assert Noise.HkdfAt(su, temp, 2) == su.hmac(temp, Noise.HkdfAt(su, temp, 1) + [2]);
    assert Noise.HkdfAt(su, temp, 3) == su.hmac(temp, Noise.HkdfAt(su, temp, 2) + [3]);
  }
}
