/** Securing a connection: the key exchange, its confirmation, and the Noise handshake. */
module Secure {
  import opened Common
  import opened Cpace
  import opened Encodings
  import opened Noise
  import opened Suite

  const CHANNEL_ID: Bytes :=
    [114, 115, 99, 46, 105, 111, 47, 99, 109, 100, 47, 109, 111, 116, 101, 32, 116, 99, 112]

  /** What one side does with the packets it is sent: what it has sent itself, and whether
      it waits for another packet, has given up, or has its two ciphers. */
  datatype Result = Awaiting | Failed | Channel(enc: Cipher, dec: Cipher)
  datatype Run = Run(sent: seq<Bytes>, result: Result)

  /** Secrets drawn by one side: the scalar of the exchange and the ephemeral Noise key. */
  datatype Secrets = Secrets(scalar: Bytes, e: Bytes)

  function Server(su: Suite, password: Bytes, own: Secrets, inbox: seq<Bytes>): Run {
    var st := Started(su, Initiator, password, CHANNEL_ID, [], [], own.scalar);
    if st.None? then Run([], Failed)
    else if |inbox| < 1 then Run([st.value.msg], Awaiting)
    else ServerConfirm(su, st.value, own, inbox)
  }

  /** The server shows its tag only to a client that has shown its own. */
  function ServerConfirm(su: Suite, st: Party, own: Secrets, inbox: seq<Bytes>): Run
    requires |inbox| >= 1
  {
    var (s1, key) := Finished(su, st, inbox[0], []);
    if key.None? then Run([st.msg], Failed)
    else if |inbox| < 2 then Run([st.msg], Awaiting)
    else if !Verified(s1, inbox[1]) then Run([st.msg], Failed)
    else ServerNoise(su, [st.msg, s1.tag.value], key.value, own, inbox)
  }

  /** The server answers the Noise handshake once it knows the client. */
  function ServerNoise(su: Suite, sent: seq<Bytes>, key: Bytes, own: Secrets, inbox: seq<Bytes>): Run
    requires |inbox| >= 2
  {
    var hs := NewHand(su, false, su.psk(key));
    if hs.None? then Run(sent, Failed)
    else if |inbox| < 3 then Run(sent, Awaiting)
    else
      var r := Read(su, hs.value, inbox[2]);
      if r.None? then Run(sent, Failed)
      else
        StepsKeepProper(su, hs.value, [], [], inbox[2]);
        var w := Written(su, r.value.0, own.e, []);
        if w.None? || w.value.1.ciphers.None? then Run(sent, Failed)
        else
          var (cs1, cs2) := w.value.1.ciphers.value;
          Run(sent + [w.value.1.out], Channel(cs2, cs1))
  }

  function Client(su: Suite, password: Bytes, own: Secrets, inbox: seq<Bytes>): Run {
    if |inbox| < 1 then Run([], Awaiting)
    else
      var st := Started(su, Responder, password, CHANNEL_ID, [], [], own.scalar);
      if st.None? then Run([], Failed) else ClientConfirm(su, st.value, own, inbox)
  }

  /** The client shows its share and its tag at once, and waits for the server's tag. */
  function ClientConfirm(su: Suite, st: Party, own: Secrets, inbox: seq<Bytes>): Run
    requires |inbox| >= 1
  {
    var (s1, key) := Finished(su, st, inbox[0], []);
    if key.None? then Run([], Failed)
    else
      var sent := [st.msg, s1.tag.value];
      if |inbox| < 2 then Run(sent, Awaiting)
      else if !Verified(s1, inbox[1]) then Run(sent, Failed)
      else ClientNoise(su, sent, key.value, own, inbox)
  }

  function ClientNoise(su: Suite, sent: seq<Bytes>, key: Bytes, own: Secrets, inbox: seq<Bytes>): Run
    requires |inbox| >= 2
  {
    var hs := NewHand(su, true, su.psk(key));
    if hs.None? then Run(sent, Failed)
    else
      var w := Written(su, hs.value, own.e, []);
      if w.None? then Run(sent, Failed)
      else
        var sent1 := sent + [w.value.1.out];
        if |inbox| < 3 then Run(sent1, Awaiting)
        else
          StepsKeepProper(su, hs.value, own.e, [], []);
          var r := Read(su, w.value.0, inbox[2]);
          if r.None? || r.value.1.ciphers.None? then Run(sent1, Failed)
          else
            var (cs1, cs2) := r.value.1.ciphers.value;
            Run(sent1, Channel(cs1, cs2))
  }

  // ----- the program -----

  /** A connection of packets: those still to be received, and those sent. */
  class Conn {
    var inbox: seq<Bytes>
    var sent: seq<Bytes>

    constructor (packets: seq<Bytes>)
      ensures inbox == packets && sent == []
    {
      inbox, sent := packets, [];
    }

    method Send(p: Bytes)
      modifies this
      ensures sent == old(sent) + [p] && inbox == old(inbox)
    {
      sent := sent + [p];
    }

    /** The next packet; None while there is none. */
    method Receive() returns (p: Option<Bytes>)
      modifies this
      ensures sent == old(sent)
      ensures if old(inbox) == [] then p == None && inbox == [] else p == Some(old(inbox)[0])
      ensures old(inbox) != [] ==> inbox == old(inbox)[1..]
    {
      if |inbox| == 0 {
        return None;
      }
      p := Some(inbox[0]);
      inbox := inbox[1..];
    }
  }

  method SecureServer(su: Suite, c: Conn, password: Bytes, own: Secrets) returns (r: Result)
    requires c.sent == []
    modifies c
    ensures Run(c.sent, r) == Server(su, password, own, old(c.inbox))
  {
    if Started(su, Initiator, password, CHANNEL_ID, [], [], own.scalar).None? {
      return Failed;
    }
    var st := new Exchange(su, Initiator, password, CHANNEL_ID, [], [], own.scalar);
    c.Send(st.msg);
    var msg2 := c.Receive();
    if msg2.None? {
      return Awaiting;
    }
    r := ConfirmServer(su, c, st, msg2.value, own, old(c.inbox));
  }

  method ConfirmServer(su: Suite, c: Conn, st: Exchange, msg2: Bytes, own: Secrets, ghost all: seq<Bytes>)
    returns (r: Result)
    requires |all| >= 1 && all[0] == msg2 && c.inbox == all[1..] && c.sent == [st.msg]
    modifies c, st
    ensures Run(c.sent, r) == ServerConfirm(su, old(st.Value()), own, all)
  {
    var key := st.Finish(su, msg2, []);
    if key.None? {
      return Failed;
    }
    var tag := c.Receive();
    if tag.None? {
      return Awaiting;
    }
    var ok := st.Verify(tag.value);
    if !ok {
      return Failed;
    }
    c.Send(st.tag.value);
    r := AnswerNoise(su, c, key.value, own, all);
  }

  method AnswerNoise(su: Suite, c: Conn, key: Bytes, own: Secrets, ghost all: seq<Bytes>) returns (r: Result)
    requires |all| >= 2 && c.inbox == all[2..]
    modifies c
    ensures Run(c.sent, r) == ServerNoise(su, old(c.sent), key, own, all)
  {
    if |su.psk(key)| != KEY_SIZE {
      return Failed;
    }
    var hs := new HandshakeState(su, false, su.psk(key));
    var m1 := c.Receive();
    if m1.None? {
      return Awaiting;
    }
    StepsKeepProper(su, hs.Value(), [], [], m1.value);
    var read := hs.ReadMessage(su, m1.value);
    if read.None? {
      return Failed;
    }
    var w := hs.WriteMessage(su, own.e, []);
    if w.None? || w.value.ciphers.None? {
      return Failed;
    }
    c.Send(w.value.out);
    var (cs1, cs2) := w.value.ciphers.value;
    return Channel(cs2, cs1);
  }

  method SecureClient(su: Suite, c: Conn, password: Bytes, own: Secrets) returns (r: Result)
    requires c.sent == []
    modifies c
    ensures Run(c.sent, r) == Client(su, password, own, old(c.inbox))
  {
    var msg1 := c.Receive();
    if msg1.None? {
      return Awaiting;
    }
    if Started(su, Responder, password, CHANNEL_ID, [], [], own.scalar).None? {
      return Failed;
    }
    var st := new Exchange(su, Responder, password, CHANNEL_ID, [], [], own.scalar);
    r := ConfirmClient(su, c, st, msg1.value, own, old(c.inbox));
  }

  method ConfirmClient(su: Suite, c: Conn, st: Exchange, msg1: Bytes, own: Secrets, ghost all: seq<Bytes>)
    returns (r: Result)
    requires |all| >= 1 && all[0] == msg1 && c.inbox == all[1..] && c.sent == []
    modifies c, st
    ensures Run(c.sent, r) == ClientConfirm(su, old(st.Value()), own, all)
  {
    var key := st.Finish(su, msg1, []);
    if key.None? {
      return Failed;
    }
    c.Send(st.msg);
    c.Send(st.tag.value);
    var tag := c.Receive();
    if tag.None? {
      return Awaiting;
    }
    var ok := st.Verify(tag.value);
    if !ok {
      return Failed;
    }
    r := OfferNoise(su, c, key.value, own, all);
  }

  method OfferNoise(su: Suite, c: Conn, key: Bytes, own: Secrets, ghost all: seq<Bytes>) returns (r: Result)
    requires |all| >= 2 && c.inbox == all[2..]
    modifies c
    ensures Run(c.sent, r) == ClientNoise(su, old(c.sent), key, own, all)
  {
    if |su.psk(key)| != KEY_SIZE {
      return Failed;
    }
    var hs := new HandshakeState(su, true, su.psk(key));
    StepsKeepProper(su, hs.Value(), own.e, [], []);
    var w := hs.WriteMessage(su, own.e, []);
    if w.None? {
      return Failed;
    }
    c.Send(w.value.out);
    var m2 := c.Receive();
    if m2.None? {
      return Awaiting;
    }
    var read := hs.ReadMessage(su, m2.value);
    if read.None? || read.value.ciphers.None? {
      return Failed;
    }
    var (cs1, cs2) := read.value.ciphers.value;
    return Channel(cs1, cs2);
  }

  // ----- the two sides together -----

  /** After n rounds, in each of which both sides are given what the other had sent before. */
  function Talk(su: Suite, p: Bytes, s: Secrets, q: Bytes, c: Secrets, n: nat): (Run, Run) {
    if n == 0 then (Server(su, p, s, []), Client(su, q, c, []))
    else
      var (x, y) := Talk(su, p, s, q, c, n - 1);
      (Server(su, p, s, y.sent), Client(su, q, c, x.sent))
  }

  function ShareOf(su: Suite, password: Bytes, own: Secrets): Bytes {
    Share(su, password, CHANNEL_ID, [], own.scalar)
  }

  /** The packets of a whole handshake: the shares, the tags, and the Noise messages. */
  datatype Packets = Packets(ya: Bytes, yb: Bytes, ta: Bytes, tb: Bytes, m1: Bytes, m2: Bytes)

  /** What each side does with each part of the other's packets. */
  ghost predicate Follows(su: Suite, p: Bytes, s: Secrets, q: Bytes, c: Secrets, k: Packets, one: Cipher, two: Cipher) {
    && Server(su, p, s, []) == Run([k.ya], Awaiting)
    && Server(su, p, s, [k.yb, k.tb]) == Run([k.ya, k.ta], Awaiting)
    && Server(su, p, s, [k.yb, k.tb, k.m1]) == Run([k.ya, k.ta, k.m2], Channel(two, one))
    && Client(su, q, c, []) == Run([], Awaiting)
    && Client(su, q, c, [k.ya]) == Run([k.yb, k.tb], Awaiting)
    && Client(su, q, c, [k.ya, k.ta]) == Run([k.yb, k.tb, k.m1], Awaiting)
    && Client(su, q, c, [k.ya, k.ta, k.m2]) == Run([k.yb, k.tb, k.m1], Channel(one, two))
  }

  lemma {:induction false} TalkFollows(su: Suite, p: Bytes, s: Secrets, q: Bytes, c: Secrets, k: Packets, one: Cipher,
                                       two: Cipher)
    requires Follows(su, p, s, q, c, k, one, two)
    ensures Talk(su, p, s, q, c, 5) ==
            (Run([k.ya, k.ta, k.m2], Channel(two, one)), Run([k.yb, k.tb, k.m1], Channel(one, two)))
  {
    assert Talk(su, p, s, q, c, 0) == (Run([k.ya], Awaiting), Run([], Awaiting));
    assert Talk(su, p, s, q, c, 1) == (Run([k.ya], Awaiting), Run([k.yb, k.tb], Awaiting));
    assert Talk(su, p, s, q, c, 2) == (Run([k.ya, k.ta], Awaiting), Run([k.yb, k.tb], Awaiting));
    assert Talk(su, p, s, q, c, 3) == (Run([k.ya, k.ta], Awaiting), Run([k.yb, k.tb, k.m1], Awaiting));
    assert Talk(su, p, s, q, c, 4) == (Run([k.ya, k.ta, k.m2], Channel(two, one)), Run([k.yb, k.tb, k.m1], Awaiting));
  }

  /** Nothing more is said then. */
  lemma {:induction false} TalkOver(su: Suite, p: Bytes, s: Secrets, q: Bytes, c: Secrets, k: Packets, one: Cipher,
                                    two: Cipher, n: nat)
    requires Follows(su, p, s, q, c, k, one, two) && n >= 5
    ensures Talk(su, p, s, q, c, n) ==
            (Run([k.ya, k.ta, k.m2], Channel(two, one)), Run([k.yb, k.tb, k.m1], Channel(one, two)))
  {
    if n == 5 {
      TalkFollows(su, p, s, q, c, k, one, two);
    } else {
      TalkOver(su, p, s, q, c, k, one, two, n - 1);
    }
  }

  lemma {:induction false} ServerFollows(su: Suite, p: Bytes, s: Secrets, st: Party, s1: Party, key: Bytes,
                                         k: Packets, r: Hand, w: Hand, one: Cipher, two: Cipher)
    requires Started(su, Initiator, p, CHANNEL_ID, [], [], s.scalar) == Some(st) && st.msg == k.ya
    requires Finished(su, st, k.yb, []) == (s1, Some(key)) && s1.tag == Some(k.ta) && Verified(s1, k.tb)
    requires NewHand(su, false, su.psk(key)).Some?
    requires var h := NewHand(su, false, su.psk(key)).value;
             Read(su, h, k.m1).Some? && Read(su, h, k.m1).value.0 == r
    requires Proper(r) && Written(su, r, s.e, []) == Some((w, Step(k.m2, Some((one, two)))))
    ensures Server(su, p, s, []) == Run([k.ya], Awaiting)
    ensures Server(su, p, s, [k.yb, k.tb]) == Run([k.ya, k.ta], Awaiting)
    ensures Server(su, p, s, [k.yb, k.tb, k.m1]) == Run([k.ya, k.ta, k.m2], Channel(two, one))
  {
    assert [k.ya, k.ta] + [k.m2] == [k.ya, k.ta, k.m2];
  }

  lemma {:induction false} ClientFollows(su: Suite, q: Bytes, c: Secrets, ct: Party, c1: Party, key: Bytes,
                                         k: Packets, w: Hand, one: Cipher, two: Cipher)
    requires Started(su, Responder, q, CHANNEL_ID, [], [], c.scalar) == Some(ct) && ct.msg == k.yb
    requires Finished(su, ct, k.ya, []) == (c1, Some(key)) && c1.tag == Some(k.tb) && Verified(c1, k.ta)
    requires NewHand(su, true, su.psk(key)).Some?
    requires var h := NewHand(su, true, su.psk(key)).value;
             Written(su, h, c.e, []) == Some((w, Step(k.m1, None)))
    requires Proper(w) && Read(su, w, k.m2).Some? && Read(su, w, k.m2).value.1.ciphers == Some((one, two))
    ensures Client(su, q, c, []) == Run([], Awaiting)
    ensures Client(su, q, c, [k.ya]) == Run([k.yb, k.tb], Awaiting)
    ensures Client(su, q, c, [k.ya, k.ta]) == Run([k.yb, k.tb, k.m1], Awaiting)
    ensures Client(su, q, c, [k.ya, k.ta, k.m2]) == Run([k.yb, k.tb, k.m1], Channel(one, two))
  {
    assert [k.yb, k.tb] + [k.m1] == [k.yb, k.tb, k.m1];
  }

  /** With equal passwords both sides end, after five rounds and ever after, with the same two
      ciphers, crosswise, unused. */
  lemma {:induction false} SamePassword(su: Suite, p: Bytes, s: Secrets, c: Secrets, n: nat)
    requires Laws(su) && ShareOf(su, p, s) != ShareOf(su, p, c) && n >= 5
    ensures var (x, y) := Talk(su, p, s, p, c, n);
            && x.result.Channel? && y.result.Channel?
            && x.result.enc == y.result.dec && x.result.dec == y.result.enc
            && x.result.enc.n == 0 && x.result.dec.n == 0
            && (Free(su) ==> x.result.enc.key != x.result.dec.key)
  {
    var ya, yb := ShareOf(su, p, s), ShareOf(su, p, c);
    MatchedParties(su, p, CHANNEL_ID, [], [], [], s.scalar, c.scalar);
    var st := Started(su, Initiator, p, CHANNEL_ID, [], [], s.scalar).value;
    var ct := Started(su, Responder, p, CHANNEL_ID, [], [], c.scalar).value;
    var (s1, key) := Finished(su, st, yb, []);
    var (c1, key') := Finished(su, ct, ya, []);
    var psk := su.psk(key.value);
    HandshakeAgrees(su, psk, c.e, s.e);
    var i, r := NewHand(su, true, psk).value, NewHand(su, false, psk).value;
    var x1 := Written(su, i, c.e, []).value;
    var y1 := Read(su, r, x1.1.out).value;
    var y2 := Written(su, y1.0, s.e, []).value;
    var (one, two) := y2.1.ciphers.value;
    var k := Packets(ya, yb, s1.tag.value, c1.tag.value, x1.1.out, y2.1.out);
    assert x1.1 == Step(k.m1, None);
    ServerFollows(su, p, s, st, s1, key.value, k, y1.0, y2.0, one, two);
    ClientFollows(su, p, c, ct, c1, key.value, k, x1.0, one, two);
    TalkOver(su, p, s, p, c, k, one, two, n);
  }

  /** How far the two sides get: the server's share, and the client's answer to it. */
  ghost predicate Halted(su: Suite, p: Bytes, s: Secrets, q: Bytes, c: Secrets, x: Run, y: Run) {
    && x.sent == [ShareOf(su, p, s)] && !x.result.Channel?
    && (y == Client(su, q, c, []) || y == Client(su, q, c, [ShareOf(su, p, s)]))
  }

  lemma {:induction false} OneMoreRound(su: Suite, p: Bytes, s: Secrets, q: Bytes, c: Secrets, x: Run, y: Run)
    requires Laws(su) && Free(su) && p != q && Halted(su, p, s, q, c, x, y)
    ensures Halted(su, p, s, q, c, Server(su, p, s, y.sent), Client(su, q, c, x.sent))
  {
    var given := if y == Client(su, q, c, []) then [] else [ShareOf(su, p, s)];
    OnlyTheShare(su, p, s, q, c, y.sent, given);
  }

  /** With different passwords neither side ever gets a channel. */
  lemma {:induction false} DifferentPasswords(su: Suite, p: Bytes, s: Secrets, q: Bytes, c: Secrets, n: nat)
    requires Laws(su) && Free(su) && p != q
    ensures var (x, y) := Talk(su, p, s, q, c, n);
            Halted(su, p, s, q, c, x, y) && !x.result.Channel? && !y.result.Channel?
  {
    assert su.dh(s.scalar, Generator(su, p, CHANNEL_ID, [])).Some?;
    if n > 0 {
      DifferentPasswords(su, p, s, q, c, n - 1);
      var (x, y) := Talk(su, p, s, q, c, n - 1);
      OneMoreRound(su, p, s, q, c, x, y);
    }
    ShortInbox(su, q, c, [ShareOf(su, p, s)]);
    ShortInbox(su, q, c, []);
  }

  lemma {:induction false} ShortInbox(su: Suite, q: Bytes, c: Secrets, given: seq<Bytes>)
    requires |given| <= 1
    ensures !Client(su, q, c, given).result.Channel? && |Client(su, q, c, given).sent| <= 2
  {
  }

  /** A server that gets a client's packets unchanged does not go past its own share when
      the passwords differ. */
  lemma {:induction false} OnlyTheShare(su: Suite, p: Bytes, s: Secrets, q: Bytes, c: Secrets, inbox: seq<Bytes>,
                                        given: seq<Bytes>)
    requires Laws(su) && Free(su) && p != q && |given| <= 1
    requires inbox == Client(su, q, c, given).sent
    ensures var x := Server(su, p, s, inbox);
            x.sent == [ShareOf(su, p, s)] && !x.result.Channel?
  {
    ShortInbox(su, q, c, given);
    assert su.dh(s.scalar, Generator(su, p, CHANNEL_ID, [])).Some?;
    if |inbox| == 2 && |Server(su, p, s, inbox).sent| >= 2 {
      ServerAccepts(su, p, s, inbox, q, c, given);
    }
  }

  /** A server that goes past its share on a client's tag has that client's password, and both
      have each other's share. */
  lemma {:induction false} ServerAccepts(su: Suite, p: Bytes, s: Secrets, inbox: seq<Bytes>, q: Bytes, c: Secrets,
                                         given: seq<Bytes>)
    requires Laws(su) && Free(su)
    requires |Server(su, p, s, inbox).sent| >= 2 && |inbox| >= 2
    requires |Client(su, q, c, given).sent| >= 2 && inbox[1] == Client(su, q, c, given).sent[1]
    ensures p == q && inbox[0] == Client(su, q, c, given).sent[0] && given[0] == Server(su, p, s, inbox).sent[0]
  {
    var (st, k) := Finished(su, Started(su, Initiator, p, CHANNEL_ID, [], [], s.scalar).value, inbox[0], []);
    var (ct, l) := Finished(su, Started(su, Responder, q, CHANNEL_ID, [], [], c.scalar).value, given[0], []);
    AcceptedTagBinds(su, st, k.value, p, CHANNEL_ID, [], [], s.scalar, inbox[0], [],
                     ct, l.value, q, CHANNEL_ID, [], [], c.scalar, given[0], []);
  }

  // ----- with anybody else on the network -----

  /** A party of an exchange that has been given a message: a server is the initiator, a client
      the responder. */
  datatype Peer = Peer(role: Role, password: Bytes, scalar: Bytes, given: Bytes)

  /** The party, and its session key, once it has finished. */
  function Ended(su: Suite, x: Peer): Option<(Party, Bytes)> {
    var st := Started(su, x.role, x.password, CHANNEL_ID, [], [], x.scalar);
    if st.None? then None
    else
      var (s1, key) := Finished(su, st.value, x.given, []);
      if key.None? then None else Some((s1, key.value))
  }

  predicate MadeBy(su: Suite, x: Peer, tag: Bytes) {
    x.role != Symmetric && Ended(su, x).Some? && Ended(su, x).value.0.tag == Some(tag)
  }

  /** Tags cannot be forged: one that the party x accepts was made by one of the parties there
      are, whatever their roles, passwords and messages. */
  ghost predicate Unforgeable(su: Suite, x: Peer, tag: Bytes, peers: set<Peer>) {
    Ended(su, x).Some? && Verified(Ended(su, x).value.0, tag) ==> exists y :: y in peers && MadeBy(su, y, tag)
  }

  /** The other role, the same password, and each has the other's share. */
  predicate Partners(su: Suite, x: Peer, y: Peer) {
    && x.role != y.role && x.password == y.password
    && x.given == Share(su, y.password, CHANNEL_ID, [], y.scalar)
    && y.given == Share(su, x.password, CHANNEL_ID, [], x.scalar)
  }

  /** Who accepts a tag has a partner. */
  lemma {:induction false} AcceptsPartner(su: Suite, x: Peer, tag: Bytes, peers: set<Peer>) returns (y: Peer)
    requires Laws(su) && Free(su) && x.role != Symmetric && Unforgeable(su, x, tag, peers)
    requires Ended(su, x).Some? && Verified(Ended(su, x).value.0, tag)
    ensures y in peers && MadeBy(su, y, tag) && Partners(su, x, y)
  {
    y :| y in peers && MadeBy(su, y, tag);
    var (st, k) := Ended(su, x).value;
    var (ct, l) := Ended(su, y).value;
    if x.role == y.role {
      NoSelfConfirmation(su, x.role, st, k, x.password, [], x.scalar, x.given, [],
                         ct, l, y.password, [], y.scalar, y.given, [], CHANNEL_ID, []);
    } else if x.role == Initiator {
      AcceptedTagBinds(su, st, k, x.password, CHANNEL_ID, [], [], x.scalar, x.given, [],
                       ct, l, y.password, CHANNEL_ID, [], [], y.scalar, y.given, []);
    } else {
      AcceptedTagBinds(su, ct, l, y.password, CHANNEL_ID, [], [], y.scalar, y.given, [],
                       st, k, x.password, CHANNEL_ID, [], [], x.scalar, x.given, []);
    }
  }

  /** When tags cannot be forged, a server that goes past its share has a client as partner. */
  lemma {:induction false} ServerKnowsClient(su: Suite, p: Bytes, s: Secrets, inbox: seq<Bytes>, peers: set<Peer>)
    returns (y: Peer)
    requires Laws(su) && Free(su)
    requires |Server(su, p, s, inbox).sent| >= 2 && |inbox| >= 2
    requires Unforgeable(su, Peer(Initiator, p, s.scalar, inbox[0]), inbox[1], peers)
    ensures y in peers && y.role == Responder && Partners(su, Peer(Initiator, p, s.scalar, inbox[0]), y)
  {
    y := AcceptsPartner(su, Peer(Initiator, p, s.scalar, inbox[0]), inbox[1], peers);
  }

  /** And a client that goes on to Noise has a server as partner. */
  lemma {:induction false} ClientKnowsServer(su: Suite, q: Bytes, c: Secrets, given: seq<Bytes>, peers: set<Peer>)
    returns (y: Peer)
    requires Laws(su) && Free(su)
    requires |Client(su, q, c, given).sent| >= 3 && |given| >= 2
    requires Unforgeable(su, Peer(Responder, q, c.scalar, given[0]), given[1], peers)
    ensures y in peers && y.role == Initiator && Partners(su, Peer(Responder, q, c.scalar, given[0]), y)
  {
    y := AcceptsPartner(su, Peer(Responder, q, c.scalar, given[0]), given[1], peers);
  }

  // ----- the keys of a channel -----

  lemma {:induction false} ServerNoiseTerms(su: Suite, sent: seq<Bytes>, key: Bytes, own: Secrets, inbox: seq<Bytes>)
    returns (t: Terms)
    requires |inbox| >= 2 && ServerNoise(su, sent, key, own, inbox).result.Channel?
    ensures |inbox| >= 3 && |inbox[2]| >= KEY_SIZE
    ensures t.psk == su.psk(key) && t.first + t.sent == inbox[2] && t.second == Public(su, own.e)
    ensures Some(t.shared) == su.dh(own.e, t.first)
    ensures ServerNoise(su, sent, key, own, inbox).result == Channel(Transport(su, t).1, Transport(su, t).0)
  {
    ResponderTerms(su, su.psk(key), inbox[2], own.e, []);
    t := Terms(su.psk(key), inbox[2][..KEY_SIZE], inbox[2][KEY_SIZE..], Public(su, own.e),
               su.dh(own.e, inbox[2][..KEY_SIZE]).value);
  }

  lemma {:induction false} ClientNoiseTerms(su: Suite, sent: seq<Bytes>, key: Bytes, own: Secrets, inbox: seq<Bytes>)
    returns (t: Terms)
    requires Laws(su) && |inbox| >= 2 && ClientNoise(su, sent, key, own, inbox).result.Channel?
    ensures |inbox| >= 3 && |inbox[2]| >= KEY_SIZE
    ensures t.psk == su.psk(key) && t.first == Public(su, own.e) && t.second == inbox[2][..KEY_SIZE]
    ensures Some(t.shared) == su.dh(own.e, t.second)
    ensures ClientNoise(su, sent, key, own, inbox).result == Channel(Transport(su, t).0, Transport(su, t).1)
  {
    InitiatorTerms(su, su.psk(key), own.e, [], inbox[2]);
    var x := Written(su, NewHand(su, true, su.psk(key)).value, own.e, []).value;
    t := Terms(su.psk(key), Public(su, own.e), x.1.out[KEY_SIZE..], inbox[2][..KEY_SIZE],
               su.dh(own.e, inbox[2][..KEY_SIZE]).value);
  }

  /** A server's channel: it writes under the responder's key and reads under the initiator's,
      and both were derived from the session key and the ephemeral keys of both sides. */
  lemma {:induction false} ServerKeys(su: Suite, p: Bytes, s: Secrets, inbox: seq<Bytes>) returns (t: Terms)
    requires Laws(su) && Server(su, p, s, inbox).result.Channel?
    ensures |inbox| >= 3 && Ended(su, Peer(Initiator, p, s.scalar, inbox[0])).Some?
    ensures t.psk == su.psk(Ended(su, Peer(Initiator, p, s.scalar, inbox[0])).value.1)
    ensures t.first + t.sent == inbox[2] && t.second == Public(su, s.e) && Some(t.shared) == su.dh(s.e, t.first)
    ensures Server(su, p, s, inbox).result == Channel(Transport(su, t).1, Transport(su, t).0)
  {
    var (s1, key) := Ended(su, Peer(Initiator, p, s.scalar, inbox[0])).value;
    t := ServerNoiseTerms(su, [s1.msg, s1.tag.value], key, s, inbox);
  }

  /** And a client's, the other way round. */
  lemma {:induction false} ClientKeys(su: Suite, q: Bytes, c: Secrets, inbox: seq<Bytes>) returns (t: Terms)
    requires Laws(su) && Client(su, q, c, inbox).result.Channel?
    ensures |inbox| >= 3 && |inbox[2]| >= KEY_SIZE && Ended(su, Peer(Responder, q, c.scalar, inbox[0])).Some?
    ensures t.psk == su.psk(Ended(su, Peer(Responder, q, c.scalar, inbox[0])).value.1)
    ensures t.first == Public(su, c.e) && t.second == inbox[2][..KEY_SIZE] && Some(t.shared) == su.dh(c.e, t.second)
    ensures Client(su, q, c, inbox).result == Channel(Transport(su, t).0, Transport(su, t).1)
  {
    var (c1, key) := Ended(su, Peer(Responder, q, c.scalar, inbox[0])).value;
    t := ClientNoiseTerms(su, [c1.msg, c1.tag.value], key, c, inbox);
  }

  ghost predicate NoKeyShared(x: Result, y: Result)
    requires x.Channel? && y.Channel?
  {
    x.enc.key != y.enc.key && x.enc.key != y.dec.key && x.dec.key != y.enc.key && x.dec.key != y.dec.key
  }

  lemma {:induction false} TermsApart(su: Suite, t: Terms, u: Terms)
    requires Free(su)
    ensures var x := Channel(Transport(su, t).1, Transport(su, t).0);
            var y := Channel(Transport(su, u).1, Transport(su, u).0);
            x.enc.key != x.dec.key && (t.psk != u.psk || t.second != u.second ==> NoKeyShared(x, y))
  {
    KeysApart(su, t, u);
  }

  /** Two servers whose keys are derived from different pre-shared keys or with different
      ephemeral keys of their own have no key in common. */
  lemma {:induction false} ServersApart(su: Suite, p: Bytes, s: Secrets, inbox: seq<Bytes>, k: Bytes, q: Bytes,
                                        c: Secrets, given: seq<Bytes>, l: Bytes)
    requires Laws(su) && Free(su)
    requires Server(su, p, s, inbox).result.Channel? && Server(su, q, c, given).result.Channel?
    requires |inbox| > 0 && Ended(su, Peer(Initiator, p, s.scalar, inbox[0])).Some?
    requires |given| > 0 && Ended(su, Peer(Initiator, q, c.scalar, given[0])).Some?
    requires k == Ended(su, Peer(Initiator, p, s.scalar, inbox[0])).value.1
    requires l == Ended(su, Peer(Initiator, q, c.scalar, given[0])).value.1
    ensures var x, y := Server(su, p, s, inbox).result, Server(su, q, c, given).result;
            && x.enc.key != x.dec.key
            && (su.psk(k) != su.psk(l) || Public(su, s.e) != Public(su, c.e) ==> NoKeyShared(x, y))
  {
    var t := ServerKeys(su, p, s, inbox);
    var u := ServerKeys(su, q, c, given);
    TermsApart(su, t, u);
  }
}
