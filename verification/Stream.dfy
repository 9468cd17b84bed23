/** The encrypted stream over a secured connection: frames, nonces, and what is read. */
module Stream {
  import opened Common
  import opened Encodings
  import opened Noise
  import opened Suite

  const MAX_PLAINTEXT := 65535 - TAG_SIZE

  // ----- nonces -----

  function LowFirst(n: nat, k: nat): (r: Bytes)
    ensures |r| == k
  {
    if k == 0 then [] else [n % 256] + LowFirst(n / 256, k - 1)
  }

  function Pow256(k: nat): nat {
    if k == 0 then 1 else 256 * Pow256(k - 1)
  }

  lemma {:induction false} LowFirstInjective(m: nat, n: nat, k: nat)
    requires m < Pow256(k) && n < Pow256(k) && LowFirst(m, k) == LowFirst(n, k)
    ensures m == n
  {
    if k > 0 {
      var x, y := LowFirst(m, k), LowFirst(n, k);
      assert x[0] == m % 256 && y[0] == n % 256;
      assert x[1..] == LowFirst(m / 256, k - 1) && y[1..] == LowFirst(n / 256, k - 1);
      LowFirstInjective(m / 256, n / 256, k - 1);
    }
  }

  /** 32 zero bits, then the counter in little-endian order. */
  function Nonce(n: nat): Bytes {
    Zeros(4) + LowFirst(n, 8)
  }

  lemma {:induction false} NonceInjective(m: nat, n: nat)
    requires m <= MAX_NONCE && n <= MAX_NONCE && Nonce(m) == Nonce(n)
    ensures m == n
  {
    assert Nonce(m)[4..] == LowFirst(m, 8) && Nonce(n)[4..] == LowFirst(n, 8);
    assert Pow256(8) > MAX_NONCE by {
      assert Pow256(2) == 256 * Pow256(1) == 0x1_0000;
      assert Pow256(4) == 256 * Pow256(3) == 256 * (256 * Pow256(2)) == 0x1_0000_0000;
      assert Pow256(6) == 256 * Pow256(5) == 256 * (256 * Pow256(4)) == 0x1_0000_0000_0000;
      assert Pow256(8) == 256 * Pow256(7) == 256 * (256 * Pow256(6));
    }
    LowFirstInjective(m, n, 8);
  }

  // ----- frames -----

  /** Sixteen bits, high byte first; what does not fit is lost. */
  function Header(n: nat): Bytes {
    [n / 256 % 256, n % 256]
  }

  /** The length a header stands for. */
  function Length(hdr: Bytes): nat
    requires |hdr| == 2
  {
    var hi: int := hdr[0];
    var lo: int := hdr[1];
    256 * hi + lo
  }

  predicate IsChunk(c: Bytes) {
    1 <= |c| <= MAX_PLAINTEXT
  }

  ghost predicate AllChunks(cs: seq<Bytes>) {
    forall k :: 0 <= k < |cs| ==> IsChunk(cs[k])
  }

  /** A message under its length, which is authenticated with it. */
  function Frame(su: Suite, key: Bytes, n: nat, c: Bytes): Bytes {
    var hdr := Header(|c| + TAG_SIZE);
    hdr + su.seal(key, n, hdr, c)
  }

  function Frames(su: Suite, key: Bytes, n: nat, cs: seq<Bytes>): Bytes
    decreases |cs|
  {
    if cs == [] then [] else Frame(su, key, n, cs[0]) + Frames(su, key, n + 1, cs[1..])
  }

  /** The pieces that p is written in. */
  function Cut(p: Bytes): seq<Bytes> {
    if p == [] then []
    else
      var n := Min(|p|, MAX_PLAINTEXT);
      [p[..n]] + Cut(p[n..])
  }

  lemma {:induction false} CutMeans(p: Bytes)
    ensures AllChunks(Cut(p)) && Flat(Cut(p)) == p
  {
    if p != [] {
      var n := Min(|p|, MAX_PLAINTEXT);
      CutMeans(p[n..]);
      assert Cut(p) == [p[..n]] + Cut(p[n..]);
      assert p[..n] + p[n..] == p;
    }
  }

  /** How many pieces can still be encrypted. */
  function Fitting(c: Cipher, p: Bytes): nat
    requires c.n <= MAX_NONCE
  {
    Min(|Cut(p)|, MAX_NONCE - c.n)
  }

  /** Writing: the cipher, the bytes put on the wire, and how much of p was written. */
  function Wrote(su: Suite, enc: Cipher, p: Bytes): (Cipher, Bytes, nat)
    requires enc.n <= MAX_NONCE
  {
    var k := Fitting(enc, p);
    (enc.(n := enc.n + k), Frames(su, enc.key, enc.n, Cut(p)[..k]), |Flat(Cut(p)[..k])|)
  }

  /** The reading side: bytes not read from the wire, the cipher, and plaintext left over. */
  datatype Reader = Reader(wire: Bytes, dec: Cipher, rbuf: Bytes)

  /** Reads frames until there is plaintext; None at the end of the wire or a bad frame. */
  function Filled(su: Suite, r: Reader): Option<Reader>
    decreases |r.wire|
  {
    if r.rbuf != [] then Some(r)
    else if |r.wire| < 2 then None
    else
      var n := Length(r.wire[..2]);
      if |r.wire| < 2 + n then None
      else
        var pt := Decrypted(su, r.dec, r.wire[..2], r.wire[2..2 + n]);
        if pt.None? then None else Filled(su, Reader(r.wire[2 + n..], pt.value.1, pt.value.0))
  }

  // ----- the program -----

  /** A cipher state: a key and a counter that every message advances. */
  class CipherState {
    const key: Bytes
    var n: nat

    constructor (k: Bytes)
      ensures key == k && n == 0
    {
      key, n := k, 0;
    }

    function Value(): Cipher
      reads this
    {
      Cipher(key, n)
    }

    method Encrypt(su: Suite, out: Bytes, ad: Bytes, pt: Bytes) returns (r: Option<Bytes>)
      modifies this
      ensures var e := Encrypted(su, old(Value()), ad, pt);
              r.Some? == e.Some? && (e.Some? ==> r.value == out + e.value.0 && Value() == e.value.1)
              && (e.None? ==> Value() == old(Value()))
    {
      if n == MAX_NONCE {
        return None;
      }
      r := Some(out + su.seal(key, n, ad, pt));
      n := n + 1;
    }

    method Decrypt(su: Suite, ad: Bytes, ct: Bytes) returns (r: Option<Bytes>)
      modifies this
      ensures var e := Decrypted(su, old(Value()), ad, ct);
              r.Some? == e.Some? && (e.Some? ==> (r.value, Value()) == e.value)
              && (e.None? ==> Value() == old(Value()))
    {
      if n == MAX_NONCE {
        return None;
      }
      r := su.open(key, n, ad, ct);
      if r.Some? {
        n := n + 1;
      }
    }
  }

  /** The bytes going one way over the connection. */
  class Wire {
    var data: Bytes

    constructor ()
      ensures data == []
    {
      data := [];
    }

    method Append(p: Bytes)
      modifies this
      ensures data == old(data) + p
    {
      data := data + p;
    }

    /** Reads exactly n bytes, or fails. */
    method ReadFull(n: nat) returns (r: Option<Bytes>)
      modifies this
      ensures if n <= |old(data)| then r == Some(old(data)[..n]) && data == old(data)[n..]
              else r == None && data == old(data)
    {
      if n > |data| {
        return None;
      }
      r := Some(data[..n]);
      data := data[n..];
    }
  }

  class SecureStream {
    const input: Wire
    const output: Wire
    const enc: CipherState
    const dec: CipherState
    var rbuf: Bytes

    constructor (i: Wire, o: Wire, e: CipherState, d: CipherState)
      ensures input == i && output == o && enc == e && dec == d && rbuf == []
    {
      input, output, enc, dec, rbuf := i, o, e, d, [];
    }

    /** One frame; false when the nonces have run out. */
    method WriteChunk(su: Suite, c: Bytes) returns (ok: bool)
      requires IsChunk(c) && enc.n <= MAX_NONCE
      modifies output, enc
      ensures ok == (old(enc.n) < MAX_NONCE)
      ensures if ok then enc.n == old(enc.n) + 1 && output.data == old(output.data) + Frame(su, enc.key, old(enc.n), c)
              else enc.n == old(enc.n) && output.data == old(output.data)
    {
      var hdr := Header(|c| + TAG_SIZE);
      var ct := enc.Encrypt(su, hdr, hdr, c);
      if ct.None? {
        return false;
      }
      output.Append(ct.value);
      return true;
    }

    method Write(su: Suite, p: Bytes) returns (total: nat, ok: bool)
      requires enc.n <= MAX_NONCE
      modifies output, enc
      ensures var w := Wrote(su, old(enc.Value()), p);
              enc.Value() == w.0 && output.data == old(output.data) + w.1 && total == w.2
      ensures ok <==> total == |p|
    {
      var rest := p;
      total := 0;
      ghost var k := 0;
      ghost var c := enc.Value();
      ghost var sent: Bytes := [];
      WrittenNone(su, c, p);
      while |rest| > 0
        invariant WrittenSoFar(p, k, rest, total) && enc.n == c.n + k <= MAX_NONCE
        invariant sent == Frames(su, c.key, c.n, Cut(p)[..k]) && output.data == old(output.data) + sent
      {
        var n := Min(|rest|, MAX_PLAINTEXT);
        var more := WriteChunk(su, rest[..n]);
        if !more {
          ok := false;
          WroteSoFar(su, c, p, k, rest, total);
          return;
        }
        WrittenOne(su, c, p, k, rest, total);
        ghost var frame := Frame(su, c.key, c.n + k, rest[..n]);
        Onwards(old(output.data), sent, frame);
        sent := sent + frame;
        rest := rest[n..];
        total := total + n;
        k := k + 1;
      }
      ok := true;
      WroteSoFar(su, c, p, k, rest, total);
    }

    /** Reads frames until there is plaintext to hand out. */
    method Fill(su: Suite) returns (ok: bool)
      requires input != output
      modifies this, input, dec
      ensures var f := Filled(su, old(Reader(input.data, dec.Value(), rbuf)));
              ok == f.Some? && (ok ==> Reader(input.data, dec.Value(), rbuf) == f.value && rbuf != [])
    {
      ghost var f := Filled(su, Reader(input.data, dec.Value(), rbuf));
      while |rbuf| == 0
        invariant Filled(su, Reader(input.data, dec.Value(), rbuf)) == f
        decreases |input.data|
      {
        ghost var wire := input.data;
        var hdr := input.ReadFull(2);
        if hdr.None? {
          return false;
        }
        var len := Length(hdr.value);
        var ct := input.ReadFull(len);
        if ct.None? {
          return false;
        }
        assert wire[2..][..len] == wire[2..2 + len] && wire[2..][len..] == wire[2 + len..];
        var pt := dec.Decrypt(su, hdr.value, ct.value);
        if pt.None? {
          return false;
        }
        rbuf := pt.value;
      }
      ok := true;
    }

    method Read(su: Suite, p: array<byte>) returns (n: nat, ok: bool)
      requires input != output
      modifies this, input, dec, p
      ensures var f := Filled(su, old(Reader(input.data, dec.Value(), rbuf)));
              && ok == f.Some?
              && (!ok ==> n == 0 && p[..] == old(p[..]))
              && (ok ==> n == Min(p.Length, |f.value.rbuf|) && p[..] == f.value.rbuf[..n] + old(p[n..])
                         && Reader(input.data, dec.Value(), rbuf) == f.value.(rbuf := f.value.rbuf[n..]))
    {
      ok := Fill(su);
      if !ok {
        return 0, false;
      }
      n := Min(p.Length, |rbuf|);
      CopyInto(p, rbuf, n);
      rbuf := rbuf[n..];
    }
  }

  method CopyInto(p: array<byte>, src: Bytes, n: nat)
    requires n <= p.Length && n <= |src|
    modifies p
    ensures p[..] == src[..n] + old(p[n..])
  {
    for i := 0 to n
      invariant p[..i] == src[..i] && p[i..] == old(p[i..])
    {
      p[i] := src[i];
      assert p[i..][1..] == p[i + 1..];
    }
    assert p[..] == p[..n] + p[n..];
  }

  lemma {:induction false} FramesAppend(su: Suite, key: Bytes, n: nat, a: seq<Bytes>, b: seq<Bytes>)
    ensures Frames(su, key, n, a + b) == Frames(su, key, n, a) + Frames(su, key, n + |a|, b)
    decreases |a|
  {
    if a == [] {
      assert a + b == b;
    } else {
      FramesAppend(su, key, n + 1, a[1..], b);
      assert (a + b)[1..] == a[1..] + b;
    }
  }

  /** The first k pieces of p are written, and rest is left. */
  ghost predicate WrittenSoFar(p: Bytes, k: nat, rest: Bytes, total: nat) {
    && k <= |Cut(p)| && Cut(p)[k..] == Cut(rest)
    && total == |Flat(Cut(p)[..k])| && total + |rest| == |p|
  }

  lemma {:induction false} WrittenNone(su: Suite, enc: Cipher, p: Bytes)
    ensures WrittenSoFar(p, 0, p, 0) && Frames(su, enc.key, enc.n, Cut(p)[..0]) == []
  {
    assert Cut(p)[0..] == Cut(p);
  }

  /** Nothing is left, or no nonce is. */
  lemma {:induction false} WroteSoFar(su: Suite, c: Cipher, p: Bytes, k: nat, rest: Bytes, total: nat)
    requires WrittenSoFar(p, k, rest, total) && c.n + k <= MAX_NONCE && (rest == [] || c.n + k == MAX_NONCE)
    ensures Wrote(su, c, p) == (c.(n := c.n + k), Frames(su, c.key, c.n, Cut(p)[..k]), total)
  {
    assert |Cut(p)| == k + |Cut(rest)|;
  }

  lemma {:induction false} WrittenOne(su: Suite, enc: Cipher, p: Bytes, k: nat, rest: Bytes, total: nat)
    requires WrittenSoFar(p, k, rest, total) && rest != []
    ensures var n := Min(|rest|, MAX_PLAINTEXT);
            && WrittenSoFar(p, k + 1, rest[n..], total + n)
            && Frames(su, enc.key, enc.n, Cut(p)[..k + 1]) ==
               Frames(su, enc.key, enc.n, Cut(p)[..k]) + Frame(su, enc.key, enc.n + k, rest[..n])
  {
    var n, cs := Min(|rest|, MAX_PLAINTEXT), Cut(p);
    var c := rest[..n];
    NextPiece(cs, k, c, rest);
    FramesAppend(su, enc.key, enc.n, cs[..k], [c]);
    OneFrame(su, enc.key, enc.n + k, c);
    FlatAppend(cs[..k], [c]);
  }

  lemma {:induction false} NextPiece(cs: seq<Bytes>, k: nat, c: Bytes, rest: Bytes)
    requires k <= |cs| && cs[k..] == Cut(rest) && rest != [] && c == rest[..Min(|rest|, MAX_PLAINTEXT)]
    ensures k < |cs| && cs[k] == c && cs[..k + 1] == cs[..k] + [c]
    ensures cs[k + 1..] == Cut(rest[|c|..])
  {
    assert Cut(rest) == [c] + Cut(rest[|c|..]);
    DropOne(cs, k, c, Cut(rest[|c|..]));
  }

  lemma {:induction false} DropOne<T>(s: seq<T>, k: nat, x: T, tail: seq<T>)
    requires k <= |s| && s[k..] == [x] + tail
    ensures k < |s| && s[k] == x && s[..k + 1] == s[..k] + [x] && s[k + 1..] == tail
  {
    assert s[k..][0] == x && s[k..][1..] == s[k + 1..];
  }

  lemma {:induction false} OneFrame(su: Suite, key: Bytes, n: nat, c: Bytes)
    ensures Frames(su, key, n, [c]) == Frame(su, key, n, c) && Flat([c]) == c
  {
    assert [c][1..] == [];
    assert Frames(su, key, n, [c]) == Frame(su, key, n, c) + [];
    assert Flat([c]) == c + [];
  }

  // ----- one direction of the channel, over all uses of it -----

  /** The writer's cipher, what a write under way has still to send, the reader, all that was
      written and read, and every counter value a message was encrypted with. */
  datatype Direction = Direction(enc: Cipher, rest: Bytes, r: Reader, written: Bytes, read: Bytes, used: seq<nat>)

  /** A write begins, one frame of it is sent, or something is read: reads may come between
      the frames of a write. */
  datatype Use = Begin(p: Bytes) | Send | ReadSome(size: nat)

  function Opened(key: Bytes): Direction {
    Direction(Cipher(key, 0), [], Reader([], Cipher(key, 0), []), [], [], [])
  }

  /** The next frame of the write under way; without a nonce the write is given up. */
  function Sent(su: Suite, d: Direction): (e: Direction)
    ensures d.enc.n <= MAX_NONCE ==> e.enc.n <= MAX_NONCE
    ensures d.rest != [] ==> |e.rest| < |d.rest|
  {
    if d.rest == [] then d
    else if d.enc.n >= MAX_NONCE then d.(rest := [])
    else
      var n := Min(|d.rest|, MAX_PLAINTEXT);
      var c := d.rest[..n];
      d.(enc := d.enc.(n := d.enc.n + 1), rest := d.rest[n..], written := d.written + c, used := d.used + [d.enc.n],
         r := d.r.(wire := d.r.wire + Frame(su, d.enc.key, d.enc.n, c)))
  }

  /** A write that begins while another is under way waits for it; a read that finds no whole
      frame waits too. */
  function After(su: Suite, d: Direction, u: Use): Direction {
    match u
    case Begin(p) => if d.rest == [] then d.(rest := p) else d
    case Send => Sent(su, d)
    case ReadSome(size) =>
      var f := Filled(su, d.r);
      if f.None? then d
      else
        var n := Min(size, |f.value.rbuf|);
        d.(r := f.value.(rbuf := f.value.rbuf[n..]), read := d.read + f.value.rbuf[..n])
  }

  /** The rest of the write under way, frame by frame. */
  function SentAll(su: Suite, d: Direction): Direction
    decreases |d.rest|
  {
    if d.rest == [] then d else SentAll(su, Sent(su, d))
  }

  /** Sending the frames of a write one by one is what the program does in one call. */
  lemma {:induction false} WriteIsItsFrames(su: Suite, d: Direction, p: Bytes)
    requires d.rest == [] && d.enc.n <= MAX_NONCE
    ensures var e, w := SentAll(su, After(su, d, Begin(p))), Wrote(su, d.enc, p);
            && w.2 <= |p| && e.rest == []
            && e == d.(enc := w.0, r := d.r.(wire := d.r.wire + w.1), written := d.written + p[..w.2], used := e.used)
  {
    FramesLeft(su, d.(rest := p));
  }

  lemma {:induction false} FramesLeft(su: Suite, d: Direction)
    requires d.enc.n <= MAX_NONCE
    ensures var e, w := SentAll(su, d), Wrote(su, d.enc, d.rest);
            && w.2 <= |d.rest| && e.rest == []
            && e == d.(enc := w.0, rest := [], r := d.r.(wire := d.r.wire + w.1),
                       written := d.written + d.rest[..w.2], used := e.used)
    decreases |d.rest|
  {
    var d1, w := Sent(su, d), Wrote(su, d.enc, d.rest);
    if d.rest == [] || d.enc.n == MAX_NONCE {
      assert Cut(d.rest)[..0] == [];
      assert d.r.wire + [] == d.r.wire && d.written + [] == d.written;
      assert SentAll(su, d1) == d1;
    } else {
      FramesLeft(su, d1);
      WroteFirst(su, d.enc, d.rest);
      var n, w1 := Min(|d.rest|, MAX_PLAINTEXT), Wrote(su, d1.enc, d1.rest);
      Onwards(d.r.wire, Frame(su, d.enc.key, d.enc.n, d.rest[..n]), w1.1);
      FirstPart(d.written, d.rest, n, w1.2);
    }
  }

  lemma {:induction false} Onwards(a: Bytes, b: Bytes, c: Bytes)
    ensures a + (b + c) == a + b + c
  {
  }

  lemma {:induction false} FirstPart(written: Bytes, p: Bytes, n: nat, m: nat)
    requires n <= |p| && m <= |p[n..]|
    ensures written + p[..n + m] == written + p[..n] + p[n..][..m]
  {
    assert p[..n + m] == p[..n] + p[n..][..m];
  }

  lemma {:induction false} WroteFirst(su: Suite, enc: Cipher, p: Bytes)
    requires p != [] && enc.n < MAX_NONCE
    ensures var n := Min(|p|, MAX_PLAINTEXT);
            var (e1, bytes1, total1) := Wrote(su, enc.(n := enc.n + 1), p[n..]);
            Wrote(su, enc, p) == (e1, Frame(su, enc.key, enc.n, p[..n]) + bytes1, n + total1)
  {
    var n := Min(|p|, MAX_PLAINTEXT);
    var cs, k := Cut(p[n..]), Fitting(enc, p);
    assert Cut(p) == [p[..n]] + cs;
    assert Cut(p)[..k] == [p[..n]] + cs[..k - 1];
    FirstOf(su, enc.key, enc.n, p[..n], cs[..k - 1]);
  }

  lemma {:induction false} FirstOf(su: Suite, key: Bytes, n: nat, c: Bytes, cs: seq<Bytes>)
    ensures Frames(su, key, n, [c] + cs) == Frame(su, key, n, c) + Frames(su, key, n + 1, cs)
    ensures Flat([c] + cs) == c + Flat(cs)
  {
    assert ([c] + cs)[1..] == cs;
  }

  /** The counters 0, 1 and so on. */
  ghost predicate Consecutive(used: seq<nat>, n: nat) {
    |used| == n && forall i :: 0 <= i < n ==> used[i] == i
  }

  /** What was written and not read yet is what is left over and the frames on the wire, in
      order; the two counters differ by those frames; and no counter value is used twice. */
  ghost predicate Fits(su: Suite, d: Direction, pending: seq<Bytes>) {
    && d.enc.key == d.r.dec.key && d.enc.n <= MAX_NONCE
    && d.r.dec.n + |pending| == d.enc.n && AllChunks(pending)
    && d.r.wire == Frames(su, d.enc.key, d.r.dec.n, pending)
    && d.written == d.read + d.r.rbuf + Flat(pending)
    && Consecutive(d.used, d.enc.n)
  }

  ghost predicate Sound(su: Suite, d: Direction) {
    exists pending :: Fits(su, d, pending)
  }

  lemma {:induction false} HeaderLength(n: nat)
    requires n < 0x1_0000
    ensures Length(Header(n)) == n
  {
  }

  /** The reader takes exactly the first frame off the wire, and gets what was in it. */
  lemma {:induction false} FrameRead(su: Suite, r: Reader, c: Bytes, rest: Bytes)
    requires Laws(su) && IsChunk(c) && r.rbuf == [] && r.dec.n < MAX_NONCE
    requires r.wire == Frame(su, r.dec.key, r.dec.n, c) + rest
    ensures Filled(su, r) == Some(Reader(rest, r.dec.(n := r.dec.n + 1), c))
  {
    var hdr := Header(|c| + TAG_SIZE);
    var ct := su.seal(r.dec.key, r.dec.n, hdr, c);
    HeaderLength(|c| + TAG_SIZE);
    assert Opens(su, r.dec.key, r.dec.n, hdr, c);
    var n := Length(hdr);
    assert r.wire == hdr + ct + rest;
    assert r.wire[..2] == hdr && r.wire[2..2 + n] == ct && r.wire[2 + n..] == rest;
    assert Decrypted(su, r.dec, hdr, ct) == Some((c, r.dec.(n := r.dec.n + 1)));
    assert Filled(su, r) == Filled(su, Reader(rest, r.dec.(n := r.dec.n + 1), c));
  }

  /** A read that goes on while frames are added ends as if they had been there, or not been
      there, from the start. */
  lemma {:induction false} FilledBehind(su: Suite, r: Reader, more: Bytes)
    requires Filled(su, r).Some?
    ensures var q := Filled(su, r).value;
            Filled(su, r.(wire := r.wire + more)) == Some(q.(wire := q.wire + more))
    decreases |r.wire|
  {
    if r.rbuf == [] {
      var n, all := Length(r.wire[..2]), r.wire + more;
      assert all[..2] == r.wire[..2] && all[2..2 + n] == r.wire[2..2 + n];
      assert all[2 + n..] == r.wire[2 + n..] + more;
      var pt := Decrypted(su, r.dec, r.wire[..2], r.wire[2..2 + n]).value;
      FilledBehind(su, Reader(r.wire[2 + n..], pt.1, pt.0), more);
    }
  }

  lemma {:induction false} SendKeeps(su: Suite, d: Direction, pending: seq<Bytes>) returns (next: seq<Bytes>)
    requires Fits(su, d, pending)
    ensures Fits(su, Sent(su, d), next)
  {
    next := pending;
    if d.rest != [] && d.enc.n < MAX_NONCE {
      var c := d.rest[..Min(|d.rest|, MAX_PLAINTEXT)];
      next := pending + [c];
      FramesAppend(su, d.enc.key, d.r.dec.n, pending, [c]);
      OneFrame(su, d.enc.key, d.enc.n, c);
      FlatPush(pending, c);
      assert d.read + d.r.rbuf + Flat(pending) + c == d.read + d.r.rbuf + (Flat(pending) + c);
    }
  }

  lemma {:induction false} ReadKeeps(su: Suite, d: Direction, size: nat, pending: seq<Bytes>) returns (next: seq<Bytes>)
    requires Laws(su) && Fits(su, d, pending)
    ensures Fits(su, After(su, d, ReadSome(size)), next)
    ensures size > 0 && (d.r.rbuf != [] || pending != []) ==> |After(su, d, ReadSome(size)).read| > |d.read|
  {
    if d.r.rbuf == [] && pending != [] {
      next := pending[1..];
      var c := pending[0];
      FrameRead(su, d.r, c, Frames(su, d.enc.key, d.r.dec.n + 1, next));
      HandOut(d.read, c, Flat(next), Min(size, |c|));
      assert d.read + [] + Flat(pending) == d.read + c + Flat(next);
    } else {
      next := pending;
      HandOut(d.read, d.r.rbuf, Flat(pending), Min(size, |d.r.rbuf|));
    }
  }

  lemma {:induction false} HandOut(read: Bytes, rbuf: Bytes, rest: Bytes, n: nat)
    requires n <= |rbuf|
    ensures read + rbuf + rest == read + rbuf[..n] + rbuf[n..] + rest
  {
    assert rbuf == rbuf[..n] + rbuf[n..];
    assert read + rbuf == read + rbuf[..n] + rbuf[n..];
  }

  lemma {:induction false} UseKeeps(su: Suite, d: Direction, u: Use)
    requires Laws(su) && Sound(su, d)
    ensures Sound(su, After(su, d, u))
  {
    var pending :| Fits(su, d, pending);
    match u
    case Begin(p) => assert Fits(su, After(su, d, u), pending);
    case Send => var next := SendKeeps(su, d, pending);
    case ReadSome(size) => var next := ReadKeeps(su, d, size, pending);
  }

  function AfterAll(su: Suite, d: Direction, us: seq<Use>): Direction {
    if us == [] then d else After(su, AfterAll(su, d, us[..|us| - 1]), us[|us| - 1])
  }

  lemma {:induction false} UsesKeep(su: Suite, d: Direction, us: seq<Use>)
    requires Laws(su) && Sound(su, d)
    ensures Sound(su, AfterAll(su, d, us))
  {
    if us != [] {
      UsesKeep(su, d, us[..|us| - 1]);
      UseKeeps(su, AfterAll(su, d, us[..|us| - 1]), us[|us| - 1]);
    }
  }

  /** Main result: after any writes and reads of any sizes, with reads between the frames of a
      write too, what was read is a prefix of what was written, nothing is lost while the
      channel lives, the reader is never ahead of the writer, and no two messages were
      encrypted under the same nonce. */
  lemma {:induction false} StreamIsFaithful(su: Suite, key: Bytes, us: seq<Use>)
    requires Laws(su)
    ensures var d := AfterAll(su, Opened(key), us);
            && d.read <= d.written
            && (d.r.wire == [] && d.r.rbuf == [] ==> d.read == d.written)
            && d.r.dec.n <= d.enc.n <= MAX_NONCE
            && forall i, j :: 0 <= i < j < |d.used| ==> d.used[j] <= MAX_NONCE && Nonce(d.used[i]) != Nonce(d.used[j])
  {
    assert Fits(su, Opened(key), []);
    UsesKeep(su, Opened(key), us);
    var d := AfterAll(su, Opened(key), us);
    var pending :| Fits(su, d, pending);
    assert d.written == d.read + (d.r.rbuf + Flat(pending));
    if pending != [] {
      assert |d.r.wire| >= |Frame(su, d.enc.key, d.r.dec.n, pending[0])| >= 2;
    }
    assert pending == [] ==> Flat(pending) == [];
    forall i, j | 0 <= i < j < |d.used| ensures d.used[j] <= MAX_NONCE && Nonce(d.used[i]) != Nonce(d.used[j]) {
      if Nonce(d.used[i]) == Nonce(d.used[j]) {
        NonceInjective(d.used[i], d.used[j]);
      }
    }
  }

  /** A read with room for a byte gets one whenever there is anything left to read. */
  lemma {:induction false} ReadsProgress(su: Suite, d: Direction, size: nat)
    requires Laws(su) && Sound(su, d) && size > 0 && d.read != d.written
    ensures |After(su, d, ReadSome(size)).read| > |d.read|
  {
    var pending :| Fits(su, d, pending);
    assert d.written == d.read + (d.r.rbuf + Flat(pending));
    assert pending == [] ==> d.r.rbuf + Flat(pending) == d.r.rbuf;
    var _ := ReadKeeps(su, d, size, pending);
  }

  // ----- a connection that may do anything -----

  /** If the bytes f open as a frame with number n, they are the writer's n-th frame. */
  ghost predicate OnlySent(su: Suite, key: Bytes, cs: seq<Bytes>, f: Bytes, n: nat) {
    |f| >= 2 && su.open(key, n, f[..2], f[2..]).Some? ==> n < |cs| && f == Frame(su, key, n, cs[n])
  }

  /** The wire holds any bytes, but of what could be taken for a frame nothing opens that the
      writer of the messages cs did not send, under that length and with that number. */
  ghost predicate Unforged(su: Suite, key: Bytes, cs: seq<Bytes>, wire: Bytes) {
    forall i, j, n: nat :: 0 <= i <= j <= |wire| ==> OnlySent(su, key, cs, wire[i..j], n)
  }

  lemma {:induction false} UnforgedRest(su: Suite, key: Bytes, cs: seq<Bytes>, wire: Bytes, k: nat)
    requires Unforged(su, key, cs, wire) && k <= |wire|
    ensures Unforged(su, key, cs, wire[k..])
  {
    forall i, j, n: nat | 0 <= i <= j <= |wire[k..]| ensures OnlySent(su, key, cs, wire[k..][i..j], n) {
      assert wire[k..][i..j] == wire[k + i..k + j];
    }
  }

  /** What the reader gets from such a wire is the next message of the writer, or nothing. */
  lemma {:induction false} FilledUnforged(su: Suite, r: Reader, cs: seq<Bytes>)
    requires Laws(su) && AllChunks(cs) && |cs| <= MAX_NONCE && Unforged(su, r.dec.key, cs, r.wire) && r.rbuf == []
    ensures Filled(su, r).Some? ==>
              && r.dec.n < |cs| && Filled(su, r).value.rbuf == cs[r.dec.n]
              && Filled(su, r).value.dec == r.dec.(n := r.dec.n + 1)
              && r.wire == Frame(su, r.dec.key, r.dec.n, cs[r.dec.n]) + Filled(su, r).value.wire
  {
    if Filled(su, r).Some? {
      var n := Length(r.wire[..2]);
      var f := r.wire[0..2 + n];
      assert f[..2] == r.wire[..2] && f[2..] == r.wire[2..2 + n];
      assert OnlySent(su, r.dec.key, cs, f, r.dec.n);
      FrameRead(su, r, cs[r.dec.n], r.wire[2 + n..]);
    }
  }

  /** What reads with buffers of these sizes get, and the reader afterwards; after an error
      there are no more. */
  function ReadMany(su: Suite, r: Reader, sizes: seq<nat>): (Bytes, Reader) {
    if sizes == [] then ([], r)
    else
      var (out, q) := ReadMany(su, r, sizes[..|sizes| - 1]);
      var f := Filled(su, q);
      if f.None? then (out, q)
      else
        var n := Min(sizes[|sizes| - 1], |f.value.rbuf|);
        (out + f.value.rbuf[..n], f.value.(rbuf := f.value.rbuf[n..]))
  }

  /** After taking the first k frames off the wire. */
  ghost predicate TookFrames(su: Suite, key: Bytes, cs: seq<Bytes>, wire: Bytes, out: Bytes, q: Reader) {
    && q.dec.key == key && q.dec.n <= |cs| && wire == Frames(su, key, 0, cs[..q.dec.n]) + q.wire
    && out + q.rbuf == Flat(cs[..q.dec.n]) && Unforged(su, key, cs, q.wire)
  }

  lemma {:induction false} FillTakes(su: Suite, key: Bytes, cs: seq<Bytes>, wire: Bytes, out: Bytes, q: Reader)
    requires Laws(su) && AllChunks(cs) && |cs| <= MAX_NONCE
    requires TookFrames(su, key, cs, wire, out, q) && Filled(su, q).Some?
    ensures TookFrames(su, key, cs, wire, out, Filled(su, q).value)
  {
    if q.rbuf == [] {
      FilledUnforged(su, q, cs);
      var k, f := q.dec.n, Filled(su, q).value;
      var c := cs[k];
      assert cs[..k + 1] == cs[..k] + [c];
      FramesAppend(su, key, 0, cs[..k], [c]);
      OneFrame(su, key, k, c);
      FlatPush(cs[..k], c);
      var frame := Frame(su, key, k, c);
      assert q.wire[|frame|..] == f.wire;
      UnforgedRest(su, key, cs, q.wire, |frame|);
      Onwards(Frames(su, key, 0, cs[..k]), frame, f.wire);
      assert out + [] == out;
    }
  }

  lemma {:induction false} ReadsUnforged(su: Suite, key: Bytes, cs: seq<Bytes>, wire: Bytes, sizes: seq<nat>)
    requires Laws(su) && AllChunks(cs) && |cs| <= MAX_NONCE && Unforged(su, key, cs, wire)
    ensures var (out, q) := ReadMany(su, Reader(wire, Cipher(key, 0), []), sizes);
            TookFrames(su, key, cs, wire, out, q)
  {
    var r := Reader(wire, Cipher(key, 0), []);
    if sizes == [] {
      assert [] + wire == wire && cs[..0] == [];
    } else {
      var (out, q) := ReadMany(su, r, sizes[..|sizes| - 1]);
      ReadsUnforged(su, key, cs, wire, sizes[..|sizes| - 1]);
      if Filled(su, q).Some? {
        FillTakes(su, key, cs, wire, out, q);
        var b, n := Filled(su, q).value.rbuf, Min(sizes[|sizes| - 1], |Filled(su, q).value.rbuf|);
        assert out + b == (out + b[..n]) + b[n..];
      }
    }
  }

  /** Main result for an untrusted connection: whatever arrives, as long as nothing in it opens
      that the writer did not send, what is read is a prefix of what was written: frames that
      are changed, left out, repeated, moved or cut otherwise, end the reading. */
  lemma {:induction false} StreamIsAuthentic(su: Suite, key: Bytes, cs: seq<Bytes>, wire: Bytes, sizes: seq<nat>)
    requires Laws(su) && AllChunks(cs) && |cs| <= MAX_NONCE && Unforged(su, key, cs, wire)
    ensures var (out, q) := ReadMany(su, Reader(wire, Cipher(key, 0), []), sizes);
            out <= Flat(cs) && q.dec.n <= |cs| && Frames(su, key, 0, cs[..q.dec.n]) <= wire
  {
    ReadsUnforged(su, key, cs, wire, sizes);
    var (out, q) := ReadMany(su, Reader(wire, Cipher(key, 0), []), sizes);
    var k := q.dec.n;
    assert cs == cs[..k] + cs[k..];
    FlatAppend(cs[..k], cs[k..]);
    assert Flat(cs) == out + (q.rbuf + Flat(cs[k..]));
  }
}
