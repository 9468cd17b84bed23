/** Packets: two lengths, a JSON section, and binary data. */
module Packets {
  import opened Common
  import opened Encodings

  const MAX_JSON := 0x10_0000
  const MAX_HANDSHAKE := 1024
  const TWO_32 := 0x1_0000_0000

  datatype Packet = Packet(js: Bytes, data: Bytes)

  /** Thirty-two bits, high byte first; what does not fit is lost. */
  function BigEndian(n: nat): Bytes {
    [n / 0x100_0000 % 256, n / 0x1_0000 % 256, n / 256 % 256, n % 256]
  }

  function Number(h: Bytes): nat
    requires |h| == 4
  {
    var a: int := h[0];
    var b: int := h[1];
    var c: int := h[2];
    var d: int := h[3];
    0x100_0000 * a + 0x1_0000 * b + 256 * c + d
  }

  lemma {:induction false} NumberOf(n: nat)
    ensures Number(BigEndian(n)) == n % TWO_32
  {
    var a, b, c := n / 0x100_0000, n / 0x1_0000, n / 256;
    assert c == n / 256 && b == c / 256 && a == b / 256;
    assert a % 256 == a - 256 * (a / 256) && n / TWO_32 == a / 256;
  }

  function Coded(p: Packet): Bytes {
    BigEndian(|p.js|) + BigEndian(|p.data|) + p.js + p.data
  }

  /** The first packet of bs and what follows it; None when there is no whole packet, or its
      JSON section is too large. */
  function Parse(bs: Bytes): Option<(Packet, Bytes)> {
    if |bs| < 8 then None
    else
      var j, d := Number(bs[..4]), Number(bs[4..8]);
      if j > MAX_JSON || |bs| < 8 + j + d then None
      else Some((Packet(bs[8..8 + j], bs[8 + j..8 + j + d]), bs[8 + j + d..]))
  }

  /** The sizes fit. */
  predicate Fits(p: Packet) {
    |p.js| <= MAX_JSON && |p.data| < TWO_32
  }

  lemma {:induction false} CodedParts(p: Packet, rest: Bytes)
    ensures var bs, j, d := Coded(p) + rest, |p.js|, |p.data|;
            && |bs| == 8 + j + d + |rest|
            && Number(bs[..4]) == j % TWO_32 && Number(bs[4..8]) == d % TWO_32
            && bs[8..8 + j] == p.js && bs[8 + j..8 + j + d] == p.data && bs[8 + j + d..] == rest
  {
    NumberOf(|p.js|);
    NumberOf(|p.data|);
    var bs, j, d := Coded(p) + rest, |p.js|, |p.data|;
    assert bs == BigEndian(j) + BigEndian(d) + p.js + p.data + rest;
    assert bs[..4] == BigEndian(j) && bs[4..8] == BigEndian(d);
    assert bs[8..8 + j] == p.js && bs[8 + j..8 + j + d] == p.data;
  }

  /** A packet is read back, with whatever follows it left alone, exactly when its sizes fit. */
  lemma {:induction false} PacketRoundTrip(p: Packet, rest: Bytes)
    ensures Parse(Coded(p) + rest) == Some((p, rest)) <==> Fits(p)
  {
    CodedParts(p, rest);
    ReadBack(Coded(p) + rest, p, rest);
  }

  lemma {:induction false} ReadBack(bs: Bytes, p: Packet, rest: Bytes)
    requires |bs| == 8 + |p.js| + |p.data| + |rest|
    requires Number(bs[..4]) == |p.js| % TWO_32 && Number(bs[4..8]) == |p.data| % TWO_32
    requires bs[8..8 + |p.js|] == p.js && bs[8 + |p.js|..8 + |p.js| + |p.data|] == p.data
    requires bs[8 + |p.js| + |p.data|..] == rest
    ensures Parse(bs) == Some((p, rest)) <==> Fits(p)
  {
    if Parse(bs).Some? {
      var q := Parse(bs).value.0;
      assert |q.js| == |p.js| % TWO_32 && |q.data| == |p.data| % TWO_32;
    }
  }

  // ----- a stream of packets -----

  function CodedAll(ps: seq<Packet>): Bytes {
    if ps == [] then [] else CodedAll(ps[..|ps| - 1]) + Coded(ps[|ps| - 1])
  }

  /** The packets that can be read from bs. */
  function ParseAll(bs: Bytes): seq<Packet>
    decreases |bs|
  {
    var r := Parse(bs);
    if r.None? then [] else [r.value.0] + ParseAll(r.value.1)
  }

  ghost predicate AllFit(ps: seq<Packet>) {
    forall k :: 0 <= k < |ps| ==> Fits(ps[k])
  }

  lemma {:induction false} ParseSeveral(ps: seq<Packet>, rest: Bytes)
    requires AllFit(ps)
    ensures ParseAll(CodedAll(ps) + rest) == ps + ParseAll(rest)
  {
    if ps == [] {
      assert [] + rest == rest;
    } else {
      var init, p := ps[..|ps| - 1], ps[|ps| - 1];
      var bs := Coded(p) + rest;
      ParseSeveral(init, bs);
      assert ParseAll(bs) == [p] + ParseAll(rest) by {
        PacketRoundTrip(p, rest);
      }
      LastPacket(init, p, bs, rest, ps);
    }
  }

  lemma {:induction false} LastPacket(init: seq<Packet>, p: Packet, bs: Bytes, rest: Bytes, ps: seq<Packet>)
    requires ps == init + [p] && bs == Coded(p) + rest
    ensures CodedAll(ps) + rest == CodedAll(init) + bs
    ensures init + ([p] + ParseAll(rest)) == ps + ParseAll(rest)
  {
    assert ps[..|ps| - 1] == init;
    assert CodedAll(init) + Coded(p) + rest == CodedAll(init) + (Coded(p) + rest);
  }

  /** A packet cut short is no packet. */
  lemma {:induction false} CutShort(p: Packet, k: nat)
    requires Fits(p) && k < |Coded(p)|
    ensures ParseAll(Coded(p)[..k]) == []
  {
    CodedHeader(p);
    ShortParse(Coded(p), Coded(p)[..k], |p.js|, |p.data|);
  }

  lemma {:induction false} CodedHeader(p: Packet)
    requires Fits(p)
    ensures |Coded(p)| == 8 + |p.js| + |p.data|
    ensures Number(Coded(p)[..4]) == |p.js| && Number(Coded(p)[4..8]) == |p.data|
  {
    CodedParts(p, []);
    assert Coded(p) + [] == Coded(p);
  }

  lemma {:induction false} ShortParse(all: Bytes, bs: Bytes, j: nat, d: nat)
    requires |all| == 8 + j + d && |bs| < |all| && bs == all[..|bs|]
    requires |bs| >= 8 ==> Number(all[..4]) == j && Number(all[4..8]) == d
    ensures ParseAll(bs) == []
  {
    if |bs| >= 8 {
      PrefixPart(all, |bs|, 0, 4);
      PrefixPart(all, |bs|, 4, 8);
      assert bs[0..4] == bs[..4] && all[0..4] == all[..4];
    }
  }

  lemma {:induction false} PrefixPart(all: Bytes, n: nat, i: nat, j: nat)
    requires i <= j <= n <= |all|
    ensures all[..n][i..j] == all[i..j]
  {
  }

  // ----- the program -----

  /** The two directions of a connection, as bytes. */
  class ByteConn {
    var input: Bytes
    var output: Bytes

    constructor (bytes: Bytes)
      ensures input == bytes && output == []
    {
      input, output := bytes, [];
    }

    method Emit(p: Bytes)
      modifies this
      ensures output == old(output) + p && input == old(input)
    {
      output := output + p;
    }

    method WritePacket(js: Bytes, data: Bytes)
      modifies this
      ensures output == old(output) + Coded(Packet(js, data)) && input == old(input)
    {
      Emit(BigEndian(|js|) + BigEndian(|data|));
      if |js| > 0 {
        Emit(js);
      }
      if |data| > 0 {
        Emit(data);
      }
      assert old(output) + (BigEndian(|js|) + BigEndian(|data|)) + js + data == old(output) + Coded(Packet(js, data));
    }

    /** Writes a packet whose data is read from a source of unknown length. */
    method WritePacketStream(js: Bytes, size: nat, source: Bytes) returns (ok: bool)
      modifies this
      ensures ok <==> size < TWO_32 && |source| == size
      ensures ok ==> output == old(output) + Coded(Packet(js, source))
      ensures size >= TWO_32 ==> output == old(output)
    {
      if size % TWO_32 != size {
        return false;
      }
      Emit(BigEndian(|js|) + BigEndian(size));
      if |js| > 0 {
        Emit(js);
      }
      var n := if |source| < size then |source| else size;
      Emit(source[..n]);
      if n < size {
        return false;
      }
      if |source[n..]| > 0 {
        return false;
      }
      ok := true;
      assert source[..n] == source;
      assert old(output) + (BigEndian(|js|) + BigEndian(size)) + js + source == old(output) + Coded(Packet(js, source));
    }

    method ReadFull(n: nat) returns (r: Option<Bytes>)
      modifies this
      ensures output == old(output)
      ensures if n <= |old(input)| then r == Some(old(input)[..n]) && input == old(input)[n..]
              else r == None && input == old(input)
    {
      if n > |input| {
        return None;
      }
      r := Some(input[..n]);
      input := input[n..];
    }

    method ReadPacket() returns (r: Option<Packet>)
      modifies this
      ensures output == old(output)
      ensures var q := Parse(old(input));
              r.Some? == q.Some? && (q.Some? ==> q.value == (r.value, input))
    {
      ghost var bs := input;
      var hdr := ReadFull(8);
      if hdr.None? {
        return None;
      }
      var j, d := Number(hdr.value[..4]), Number(hdr.value[4..]);
      assert hdr.value[..4] == bs[..4] && hdr.value[4..] == bs[4..8];
      if j > MAX_JSON {
        return None;
      }
      var js := ReadFull(j);
      if js.None? {
        return None;
      }
      assert js.value == bs[8..8 + j] && input == bs[8 + j..];
      var data := ReadFull(d);
      if data.None? {
        return None;
      }
      assert data.value == bs[8 + j..8 + j + d] && input == bs[8 + j + d..];
      return Some(Packet(js.value, data.value));
    }

    /** A packet without JSON and with little data, checked before anything is allocated. */
    method ReadHandshakePacket() returns (r: Option<Bytes>)
      modifies this
      ensures var q := Parse(old(input));
              r.Some? <==> q.Some? && q.value.0.js == [] && |q.value.0.data| <= MAX_HANDSHAKE
      ensures r.Some? ==> Parse(old(input)) == Some((Packet([], r.value), input))
    {
      ghost var bs := input;
      var hdr := ReadFull(8);
      if hdr.None? {
        return None;
      }
      var j, d := Number(hdr.value[..4]), Number(hdr.value[4..]);
      assert hdr.value[..4] == bs[..4] && hdr.value[4..] == bs[4..8];
      if j != 0 || d > MAX_HANDSHAKE {
        return None;
      }
      var data := ReadFull(d);
      if data.None? {
        return None;
      }
      assert data.value == bs[8..8 + d] && input == bs[8 + d..] && bs[8..8] == [];
      return Some(data.value);
    }
  }
}
