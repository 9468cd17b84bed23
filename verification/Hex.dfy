/** The hex encoding of a connection: lines of digits out, digits with stray newlines in. */
module Hex {
  import opened Common
  import opened Encodings

  const LINE_BYTES := 64
  const NEWLINE: byte := 10
  const RETURN: byte := 13

  // ----- digits -----

  function Digit(v: nat): byte
    requires v < 16
  {
    if v < 10 then 48 + v else 97 + v - 10
  }

  function Unhex(c: byte): Option<nat> {
    if 48 <= c <= 57 then Some(c - 48)
    else if 97 <= c <= 102 then Some(c - 97 + 10)
    else if 65 <= c <= 70 then Some(c - 65 + 10)
    else None
  }

  const LOWER := "0123456789abcdef"
  const UPPER := "0123456789ABCDEF"

  /** A digit of either case has the value of its place in the alphabet; nothing else has one. */
  lemma {:induction false} UnhexIff(c: byte, v: nat)
    ensures Unhex(c) == Some(v) <==> v < 16 && (c == LOWER[v] as int || c == UPPER[v] as int)
    ensures v < 16 ==> Digit(v) == LOWER[v] as int
  {
    if v < 10 {
      assert LOWER[v] as int == UPPER[v] as int == 48 + v;
    } else if v < 16 {
      assert LOWER[v] as int == 97 + v - 10 && UPPER[v] as int == 65 + v - 10;
    }
  }

  lemma {:induction false} UnhexDigit(v: nat)
    requires v < 16
    ensures Unhex(Digit(v)) == Some(v)
  {
  }

  predicate IsBreak(c: byte) {
    c == NEWLINE || c == RETURN
  }

  // ----- writing -----

  function Digits(p: Bytes): Bytes {
    if p == [] then [] else Digits(p[..|p| - 1]) + [Digit(p[|p| - 1] / 16), Digit(p[|p| - 1] % 16)]
  }

  /** Lines of at most 64 bytes. */
  function Lines(p: Bytes): seq<Bytes> {
    if p == [] then []
    else
      var n := Min(|p|, LINE_BYTES);
      [p[..n]] + Lines(p[n..])
  }

  function Encoded(ls: seq<Bytes>): Bytes {
    if ls == [] then [] else Digits(ls[0]) + [NEWLINE] + Encoded(ls[1..])
  }

  class HexWriter {
    var wire: Bytes
    var buf: Bytes

    constructor ()
      ensures wire == []
    {
      wire, buf := [], [];
    }

    /** One write to the connection for each call. */
    method Write(p: Bytes) returns (n: nat)
      modifies this
      ensures wire == old(wire) + Encoded(Lines(p)) && n == |p|
    {
      buf := [];
      var rest := p;
      while |rest| > 0
        invariant buf + Encoded(Lines(rest)) == Encoded(Lines(p)) && wire == old(wire)
        decreases |rest|
      {
        var line := rest;
        if |line| > LINE_BYTES {
          line := line[..LINE_BYTES];
        }
        OneLine(buf, rest, line);
        rest := rest[|line|..];
        var digits := AppendEncode(buf, line);
        buf := digits + [NEWLINE];
      }
      wire := wire + buf;
      n := |p|;
    }
  }

  lemma {:induction false} OneLine(buf: Bytes, rest: Bytes, line: Bytes)
    requires rest != [] && line == rest[..Min(|rest|, LINE_BYTES)]
    ensures buf + Encoded(Lines(rest)) == buf + Digits(line) + [NEWLINE] + Encoded(Lines(rest[|line|..]))
  {
    FirstLine(rest, line);
    Regroup(buf, Digits(line), [NEWLINE], Encoded(Lines(rest[|line|..])));
  }

  lemma {:induction false} FirstLine(rest: Bytes, line: Bytes)
    requires rest != [] && line == rest[..Min(|rest|, LINE_BYTES)]
    ensures Encoded(Lines(rest)) == Digits(line) + [NEWLINE] + Encoded(Lines(rest[|line|..]))
  {
    var tail := Lines(rest[|line|..]);
    assert Lines(rest) == [line] + tail;
    assert ([line] + tail)[1..] == tail;
  }

  lemma {:induction false} Regroup(a: Bytes, b: Bytes, c: Bytes, d: Bytes)
    ensures a + (b + c + d) == a + b + c + d
  {
  }

  method AppendEncode(b: Bytes, p: Bytes) returns (r: Bytes)
    ensures r == b + Digits(p)
  {
    r := b;
    for i := 0 to |p|
      invariant r == b + Digits(p[..i])
    {
      assert p[..i + 1][..i] == p[..i];
      r := r + [Digit(p[i] / 16), Digit(p[i] % 16)];
    }
    assert p[..|p|] == p;
  }

  lemma {:induction false} DigitsLength(p: Bytes)
    ensures |Digits(p)| == 2 * |p| && forall k :: 0 <= k < |Digits(p)| ==> Unhex(Digits(p)[k]).Some?
  {
    if p != [] {
      DigitsLength(p[..|p| - 1]);
      UnhexDigit(p[|p| - 1] / 16);
      UnhexDigit(p[|p| - 1] % 16);
    }
  }

  /** No line is longer than 128 digits, and only the last is shorter. */
  lemma {:induction false} LinesShort(p: Bytes)
    ensures forall k :: 0 <= k < |Lines(p)| ==> 1 <= |Lines(p)[k]| <= LINE_BYTES && |Digits(Lines(p)[k])| <= 128
    ensures forall k :: 0 <= k < |Lines(p)| - 1 ==> |Lines(p)[k]| == 64
  {
    if p != [] {
      var n := Min(|p|, LINE_BYTES);
      LinesShort(p[n..]);
      DigitsLength(p[..n]);
      assert Lines(p) == [p[..n]] + Lines(p[n..]);
    }
  }

  lemma {:induction false} DigitsNoBreak(p: Bytes)
    ensures forall k :: 0 <= k < |Digits(p)| ==> Digits(p)[k] != NEWLINE
  {
    if p != [] {
      DigitsNoBreak(p[..|p| - 1]);
    }
  }

  /** A newline follows every 128 digits, and what is left at the end. */
  predicate BreaksAt(text: Bytes) {
    && (text != [] ==> text[|text| - 1] == NEWLINE)
    && forall i :: 0 <= i < |text| - 1 ==> (text[i] == NEWLINE <==> i % 129 == 128)
  }

  /** Where the newlines are. */
  lemma {:induction false} NewlineEvery128(p: Bytes)
    ensures BreaksAt(Encoded(Lines(p)))
    ensures p != [] ==> Encoded(Lines(p)) != []
  {
    if p != [] {
      var n := Min(|p|, LINE_BYTES);
      FirstLine(p, p[..n]);
      DigitsLength(p[..n]);
      DigitsNoBreak(p[..n]);
      NewlineEvery128(p[n..]);
      BreaksBehind(Digits(p[..n]), Encoded(Lines(p[n..])));
    }
  }

  lemma {:induction false} BreaksBehind(digits: Bytes, text: Bytes)
    requires |digits| <= 128 && (forall k :: 0 <= k < |digits| ==> digits[k] != NEWLINE)
    requires BreaksAt(text) && (text != [] ==> |digits| == 128)
    ensures BreaksAt(digits + [NEWLINE] + text)
  {
    var all := digits + [NEWLINE] + text;
    forall i | 0 <= i < |all| - 1 ensures all[i] == NEWLINE <==> i % 129 == 128 {
      if i > 128 {
        assert all[i] == text[i - 129];
      }
    }
  }

  // ----- what the newlines leave -----

  function Stripped(bs: Bytes): Bytes {
    if bs == [] then []
    else Stripped(bs[..|bs| - 1]) + if IsBreak(bs[|bs| - 1]) then [] else [bs[|bs| - 1]]
  }

  lemma {:induction false} StrippedAppend(a: Bytes, b: Bytes)
    ensures Stripped(a + b) == Stripped(a) + Stripped(b)
  {
    if b == [] {
      assert a + b == a;
    } else {
      StrippedAppend(a, b[..|b| - 1]);
      assert (a + b)[..|a + b| - 1] == a + b[..|b| - 1];
    }
  }

  lemma {:induction false} DigitsAppend(a: Bytes, b: Bytes)
    ensures Digits(a + b) == Digits(a) + Digits(b)
  {
    if b == [] {
      assert a + b == a;
    } else {
      DigitsAppend(a, b[..|b| - 1]);
      assert (a + b)[..|a + b| - 1] == a + b[..|b| - 1];
    }
  }

  lemma {:induction false} StrippedOne(c: byte)
    ensures Stripped([c]) == if IsBreak(c) then [] else [c]
  {
    assert [c][..0] == [];
  }

  lemma {:induction false} StrippedDigits(p: Bytes)
    ensures Stripped(Digits(p)) == Digits(p)
  {
    if p != [] {
      var init, hi, lo := p[..|p| - 1], Digit(p[|p| - 1] / 16), Digit(p[|p| - 1] % 16);
      StrippedDigits(init);
      StrippedOne(hi);
      StrippedOne(lo);
      StrippedAppend([hi], [lo]);
      assert [hi] + [lo] == [hi, lo];
      StrippedAppend(Digits(init), [hi, lo]);
    }
  }

  lemma {:induction false} LineStripped(line: Bytes, rest: Bytes)
    ensures Stripped(Digits(line) + [NEWLINE] + rest) == Digits(line) + Stripped(rest)
  {
    StrippedDigits(line);
    StrippedOne(NEWLINE);
    StrippedAppend(Digits(line), [NEWLINE]);
    StrippedAppend(Digits(line) + [NEWLINE], rest);
    assert Digits(line) + [] == Digits(line);
  }

  /** Only line breaks come between the digits of what is written. */
  lemma {:induction false} WrittenDigits(p: Bytes)
    ensures Stripped(Encoded(Lines(p))) == Digits(p)
  {
    if p != [] {
      var n := Min(|p|, LINE_BYTES);
      var line := p[..n];
      FirstLine(p, line);
      LineStripped(line, Encoded(Lines(p[n..])));
      WrittenDigits(p[n..]);
      DigitsAppend(line, p[n..]);
      assert line + p[n..] == p;
    }
  }

  // ----- reading -----

  /** The first digit of a pair that is not complete. */
  datatype Half = Half(hi: nat, odd: bool)

  datatype Fed = Fed(out: Bytes, half: Half, ok: bool)

  predicate Proper(h: Half) {
    h.hi < 16
  }

  function FeedOne(f: Fed, c: byte): (g: Fed)
    requires Proper(f.half)
    ensures Proper(g.half)
  {
    var v := Unhex(c);
    if !f.ok || (v.None? && IsBreak(c)) then f
    else if v.None? then f.(ok := false)
    else if !f.half.odd then f.(half := Half(v.value, true))
    else Fed(f.out + [16 * f.half.hi + v.value], Half(f.half.hi, false), true)
  }

  /** Decoding some bytes: what comes out, the digit left over, and whether all was hex. */
  function Feed(h: Half, bs: Bytes): (f: Fed)
    requires Proper(h)
    ensures Proper(f.half)
  {
    if bs == [] then Fed([], h, true) else FeedOne(Feed(h, bs[..|bs| - 1]), bs[|bs| - 1])
  }

  lemma {:induction false} FeedPush(h: Half, bs: Bytes, c: byte)
    requires Proper(h)
    ensures Feed(h, bs + [c]) == FeedOne(Feed(h, bs), c)
  {
    assert (bs + [c])[..|bs|] == bs;
  }

  /** What one read of the connection delivers at most, and whether an error comes with it. */
  datatype Delivery = Delivery(size: nat, err: bool)

  /** The bytes that the connection still has to deliver, and how; at the end, only errors. */
  class Source {
    var rest: Bytes
    var script: seq<Delivery>

    constructor (bytes: Bytes, ds: seq<Delivery>)
      ensures rest == bytes && script == ds
    {
      rest, script := bytes, ds;
    }

    method Read(max: nat) returns (bs: Bytes, err: bool)
      modifies this
      ensures (bs, rest, script, err) == Pulled(old(rest), old(script), max)
    {
      if |script| == 0 {
        return [], true;
      }
      var n := Min(script[0].size, Min(max, |rest|));
      bs := rest[..n];
      err := script[0].err;
      rest := rest[n..];
      script := script[1..];
    }
  }

  function Pulled(rest: Bytes, script: seq<Delivery>, max: nat): (Bytes, Bytes, seq<Delivery>, bool) {
    if script == [] then ([], rest, [], true)
    else
      var n := Min(script[0].size, Min(max, |rest|));
      (rest[..n], rest[n..], script[1..], script[0].err)
  }

  /** The reader and the connection behind it. */
  datatype Reader = Reader(half: Half, rest: Bytes, script: seq<Delivery>)
  datatype ReadResult = ReadResult(out: Bytes, r: Reader, ok: bool, err: bool)

  /** Reads until there is a byte, the data is not hex, or the connection reports an error. */
  function ReadOnce(r: Reader, len: nat): ReadResult
    requires Proper(r.half)
    decreases |r.script|
  {
    var (bs, rest, script, err) := Pulled(r.rest, r.script, 2 * len);
    var f := Feed(r.half, bs);
    var next := Reader(f.half, rest, script);
    if !f.ok || f.out != [] || err then ReadResult(f.out, next, f.ok, f.ok && err) else ReadOnce(next, len)
  }

  class HexReader {
    const src: Source
    var hi: nat
    var odd: bool
    var failed: bool

    constructor (s: Source)
      ensures src == s && !failed && Value() == Half(0, false)
    {
      src, hi, odd, failed := s, 0, false, false;
    }

    function Value(): Half
      reads this
    {
      Half(hi, odd)
    }

    /** Decodes the bytes into p, from its start, as far as they are hex. */
    method Decode(bs: Bytes, p: array<byte>) returns (n: nat)
      requires Proper(Value()) && |bs| <= 2 * p.Length && !failed
      modifies this, p
      ensures var f := Feed(old(Value()), bs);
              && n == |f.out| <= p.Length && p[..n] == f.out && p[..][n..] == old(p[..])[n..]
              && Value() == f.half && failed == !f.ok
    {
      n := 0;
      ghost var h := Value();
      ghost var f := Fed([], h, true);
      for i := 0 to |bs|
        invariant 2 * n + (if odd then 1 else 0) <= i + (if h.odd then 1 else 0) && n <= p.Length
        invariant Proper(Value()) && !failed
        invariant Feed(h, bs[..i]) == f
        invariant f == Fed(p[..n], Value(), true)
        invariant p[..][n..] == old(p[..])[n..]
      {
        var c := bs[i];
        FeedPush(h, bs[..i], c);
        assert bs[..i] + [c] == bs[..i + 1];
        f := FeedOne(f, c);
        var v := Unhex(c);
        if v.None? {
          if c == NEWLINE || c == RETURN {
            continue;
          }
          failed := true;
          StaysBad(h, bs, i + 1);
          return;
        }
        if !odd {
          hi, odd := v.value, true;
          continue;
        }
        ghost var was := p[..];
        Store(p, n, 16 * hi + v.value);
        StillLeft(old(p[..]), was, p[..], n);
        n := n + 1;
        odd := false;
      }
      assert bs[..|bs|] == bs;
    }

    method Read(p: array<byte>) returns (n: nat, ok: bool, err: bool)
      requires Proper(Value())
      modifies this, src, p
      ensures old(failed) ==> n == 0 && !ok && p[..] == old(p[..])
      ensures !old(failed) && p.Length == 0 ==> n == 0 && ok && !err
      ensures !old(failed) && p.Length > 0 ==>
                var r := ReadOnce(old(Reader(Value(), src.rest, src.script)), p.Length);
                && n == |r.out| <= p.Length && p[..n] == r.out
                && Reader(Value(), src.rest, src.script) == r.r && ok == r.ok == !failed && err == r.err
      ensures Proper(Value())
    {
      if failed {
        return 0, false, false;
      }
      if p.Length == 0 {
        return 0, true, false;
      }
      ghost var r := ReadOnce(Reader(Value(), src.rest, src.script), p.Length);
      while true
        invariant Proper(Value()) && !failed
        invariant ReadOnce(Reader(Value(), src.rest, src.script), p.Length) == r
        decreases |src.script|
      {
        var bs;
        bs, err := src.Read(2 * p.Length);
        n := Decode(bs, p);
        if failed || n > 0 || err {
          return n, !failed, !failed && err;
        }
      }
    }
  }

  /** What is behind position n is still left behind the next one. */
  lemma {:induction false} StillLeft(all: Bytes, was: Bytes, now: Bytes, n: nat)
    requires n < |all| == |was| == |now| && was[n..] == all[n..] && now[n + 1..] == was[n + 1..]
    ensures now[n + 1..] == all[n + 1..]
  {
    assert was[n + 1..] == was[n..][1..] && all[n + 1..] == all[n..][1..];
  }

  method Store(p: array<byte>, n: nat, v: byte)
    requires n < p.Length
    modifies p
    ensures p[..n + 1] == old(p[..n]) + [v] && p[..][n + 1..] == old(p[..])[n + 1..]
  {
    p[n] := v;
  }

  /** What is not hex stops the decoding for good. */
  lemma {:induction false} StaysBad(h: Half, bs: Bytes, k: nat)
    requires Proper(h) && k <= |bs| && !Feed(h, bs[..k]).ok
    ensures Feed(h, bs) == Feed(h, bs[..k])
  {
    if k < |bs| {
      assert bs[..|bs| - 1][..k] == bs[..k];
      StaysBad(h, bs[..|bs| - 1], k);
    } else {
      assert bs[..k] == bs;
    }
  }

  predicate Legal(c: byte) {
    IsBreak(c) || Unhex(c).Some?
  }

  /** Decoding fails exactly when there is something that is neither a digit nor a line break,
      and has then decoded what comes before. */
  lemma {:induction false} FeedRefuses(h: Half, bs: Bytes)
    requires Proper(h)
    ensures Feed(h, bs).ok <==> forall k :: 0 <= k < |bs| ==> Legal(bs[k])
    ensures forall k :: 0 <= k < |bs| && !Legal(bs[k]) && Feed(h, bs[..k]).ok ==>
              Feed(h, bs) == Feed(h, bs[..k]).(ok := false)
  {
    if bs != [] {
      FeedRefuses(h, bs[..|bs| - 1]);
    }
    forall k | 0 <= k < |bs| && !Legal(bs[k]) && Feed(h, bs[..k]).ok
      ensures Feed(h, bs) == Feed(h, bs[..k]).(ok := false)
    {
      FeedPush(h, bs[..k], bs[k]);
      assert bs[..k] + [bs[k]] == bs[..k + 1];
      StaysBad(h, bs, k + 1);
    }
  }

  /** Digits make bytes two by two, the first being the high half. */
  lemma {:induction false} FeedDigits(bs: Bytes)
    requires forall k :: 0 <= k < |bs| ==> Unhex(bs[k]).Some?
    ensures var f := Feed(Half(0, false), bs);
            && f.ok && f.half.odd == (|bs| % 2 == 1) && |f.out| == |bs| / 2
            && (f.half.odd ==> f.half.hi == Unhex(bs[|bs| - 1]).value)
            && forall k :: 0 <= k < |f.out| ==> f.out[k] == 16 * Unhex(bs[2 * k]).value + Unhex(bs[2 * k + 1]).value
  {
    if bs != [] {
      FeedDigits(bs[..|bs| - 1]);
    }
  }

  // ----- the whole conversation -----

  /** Decoding in two parts is decoding the whole. */
  lemma {:induction false} FeedAppend(h: Half, a: Bytes, b: Bytes)
    requires Proper(h) && Feed(h, a).ok
    ensures var f, g := Feed(h, a), Feed(Feed(h, a).half, b);
            Feed(h, a + b) == Fed(f.out + g.out, g.half, g.ok)
  {
    var f := Feed(h, a);
    if b == [] {
      assert a + b == a && f.out + [] == f.out;
    } else {
      var init, c := b[..|b| - 1], b[|b| - 1];
      FeedAppend(h, a, init);
      FeedPush(h, a + init, c);
      assert a + b == a + init + [c];
      FeedAfter(f.out, Feed(f.half, init), c);
    }
  }

  lemma {:induction false} FeedAfter(out: Bytes, f: Fed, c: byte)
    requires Proper(f.half)
    ensures var g := FeedOne(f, c);
            FeedOne(Fed(out + f.out, f.half, f.ok), c) == Fed(out + g.out, g.half, g.ok)
  {
    if f.half.odd && f.ok && Unhex(c).Some? {
      var b := 16 * f.half.hi + Unhex(c).value;
      assert out + f.out + [b] == out + (f.out + [b]);
    }
  }

  lemma {:induction false} FedParts(h: Half, a: Bytes, b: Bytes)
    requires Proper(h) && Feed(h, a + b).ok
    ensures Feed(h, a).ok
  {
    if !Feed(h, a).ok {
      assert (a + b)[..|a|] == a;
      StaysBad(h, a + b, |a|);
    }
  }

  /** Line breaks make no difference, wherever they are. */
  lemma {:induction false} BreaksIgnored(h: Half, bs: Bytes)
    requires Proper(h)
    ensures Feed(h, bs) == Feed(h, Stripped(bs))
  {
    if bs != [] {
      var init, c := bs[..|bs| - 1], bs[|bs| - 1];
      BreaksIgnored(h, init);
      assert IsBreak(c) ==> Unhex(c).None?;
      var kept := Stripped(init);
      assert kept + [] == kept && (kept + [c])[..|kept|] == kept;
    }
  }

  lemma {:induction false} FeedPair(h: Half, bs: Bytes, b: byte)
    requires Proper(h) && Feed(h, bs).ok && !Feed(h, bs).half.odd
    ensures var f, g := Feed(h, bs), Feed(h, bs + [Digit(b / 16), Digit(b % 16)]);
            g.out == f.out + [b] && g.ok && !g.half.odd
  {
    var hi, lo := Digit(b / 16), Digit(b % 16);
    FeedPush(h, bs, hi);
    FeedPush(h, bs + [hi], lo);
    assert bs + [hi] + [lo] == bs + [hi, lo];
    TwoDigits(Feed(h, bs), b);
  }

  lemma {:induction false} TwoDigits(f: Fed, b: byte)
    requires Proper(f.half) && f.ok && !f.half.odd
    ensures var g := FeedOne(FeedOne(f, Digit(b / 16)), Digit(b % 16));
            g.out == f.out + [b] && g.ok && !g.half.odd
  {
    UnhexDigit(b / 16);
    UnhexDigit(b % 16);
  }

  lemma {:induction false} DigitsDecode(p: Bytes)
    ensures var f := Feed(Half(0, false), Digits(p));
            f.ok && f.out == p && !f.half.odd
  {
    if p != [] {
      var init, b := p[..|p| - 1], p[|p| - 1];
      DigitsDecode(init);
      FeedPair(Half(0, false), Digits(init), b);
      assert init + [b] == p;
    }
  }

  /** What a sequence of writes puts on the wire. */
  function Wire(writes: seq<Bytes>): Bytes {
    if writes == [] then [] else Wire(writes[..|writes| - 1]) + Encoded(Lines(writes[|writes| - 1]))
  }

  lemma {:induction false} WireDigits(writes: seq<Bytes>)
    ensures Stripped(Wire(writes)) == Digits(Flat(writes))
  {
    if writes != [] {
      var init, p := writes[..|writes| - 1], writes[|writes| - 1];
      WireDigits(init);
      WrittenDigits(p);
      StrippedAppend(Wire(init), Encoded(Lines(p)));
      assert Stripped(Wire(writes)) == Digits(Flat(init)) + Digits(p);
      DigitsAppend(Flat(init), p);
      assert init + [p] == writes;
      FlatPush(init, p);
    }
  }

  /** What arrives: the same digits, with line breaks added or removed anywhere. */
  predicate Arrives(wire: Bytes, writes: seq<Bytes>) {
    Stripped(wire) == Stripped(Wire(writes))
  }

  lemma {:induction false} ArrivedDecodes(wire: Bytes, writes: seq<Bytes>)
    requires Arrives(wire, writes)
    ensures var f := Feed(Half(0, false), wire);
            f.ok && f.out == Flat(writes) && !f.half.odd
  {
    WireDigits(writes);
    BreaksIgnored(Half(0, false), wire);
    DigitsDecode(Flat(writes));
  }

  /** From half h and the bytes rest, some bytes have been decoded to out. */
  ghost predicate Took(h: Half, rest: Bytes, used: Bytes, out: Bytes, h1: Half, rest1: Bytes) {
    Proper(h) && rest == used + rest1 && Feed(h, used) == Fed(out, h1, true)
  }

  lemma {:induction false} TookBoth(h: Half, rest: Bytes, a: Bytes, out: Bytes, h1: Half, rest1: Bytes, b: Bytes,
                                    out1: Bytes, h2: Half, rest2: Bytes)
    requires Took(h, rest, a, out, h1, rest1) && Took(h1, rest1, b, out1, h2, rest2)
    ensures Took(h, rest, a + b, out + out1, h2, rest2)
  {
    FeedAppend(h, a, b);
    assert a + (b + rest2) == a + b + rest2;
  }

  /** What is left to decode is hex too. */
  lemma {:induction false} TookRest(h: Half, rest: Bytes, used: Bytes, out: Bytes, h1: Half, rest1: Bytes)
    requires Took(h, rest, used, out, h1, rest1) && Feed(h, rest).ok
    ensures Proper(h1) && Feed(h1, rest1).ok
    ensures Feed(h, rest).out == out + Feed(h1, rest1).out
  {
    FeedAppend(h, used, rest1);
  }

  /** A read takes some bytes off the wire and decodes exactly those. */
  lemma {:induction false} ReadTakes(r: Reader, len: nat) returns (used: Bytes)
    requires Proper(r.half) && len > 0 && Feed(r.half, r.rest).ok
    ensures var q := ReadOnce(r, len);
            q.ok && |q.out| <= len && Took(r.half, r.rest, used, q.out, q.r.half, q.r.rest)
    decreases |r.script|
  {
    var (bs, rest, script, err) := Pulled(r.rest, r.script, 2 * len);
    var f := Feed(r.half, bs);
    assert r.rest == bs + rest;
    FedParts(r.half, bs, rest);
    FeedLength(r.half, bs);
    assert Took(r.half, r.rest, bs, f.out, f.half, rest);
    if f.out != [] || err {
      used := bs;
    } else {
      TookRest(r.half, r.rest, bs, [], f.half, rest);
      var next := Reader(f.half, rest, script);
      var more := ReadTakes(next, len);
      var q := ReadOnce(next, len);
      TookBoth(r.half, r.rest, bs, [], f.half, rest, more, q.out, q.r.half, q.r.rest);
      used := bs + more;
      assert [] + q.out == q.out;
    }
  }

  /** The read q has taken the bytes used off the wire, and is what decoding them gives. */
  ghost predicate Consumed(h: Half, rest: Bytes, used: Bytes, q: ReadResult) {
    Proper(h) && rest == used + q.r.rest && Feed(h, used) == Fed(q.out, q.r.half, q.ok)
  }

  lemma {:induction false} ConsumedLater(h: Half, bs: Bytes, h1: Half, rest: Bytes, more: Bytes, q: ReadResult)
    requires Proper(h) && Feed(h, bs) == Fed([], h1, true) && Consumed(h1, rest, more, q)
    ensures Consumed(h, bs + rest, bs + more, q)
  {
    FeedAppend(h, bs, more);
    assert [] + q.out == q.out;
    assert bs + (more + q.r.rest) == bs + more + q.r.rest;
  }

  /** Of any bytes whatever, a read takes some and decodes those; it fails exactly when there is
      something among them that is not hex, and otherwise brings a byte or an error. */
  lemma {:induction false} ReadRefuses(r: Reader, len: nat) returns (used: Bytes)
    requires Proper(r.half) && len > 0
    ensures var q := ReadOnce(r, len);
            && Consumed(r.half, r.rest, used, q) && |q.out| <= len
            && (q.ok <==> forall k :: 0 <= k < |used| ==> Legal(used[k]))
            && (q.ok ==> q.out != [] || q.err)
    decreases |r.script|
  {
    var (bs, rest, script, err) := Pulled(r.rest, r.script, 2 * len);
    var f := Feed(r.half, bs);
    assert r.rest == bs + rest;
    FeedLength(r.half, bs);
    if !f.ok || f.out != [] || err {
      used := bs;
    } else {
      var more := ReadRefuses(Reader(f.half, rest, script), len);
      used := bs + more;
      ConsumedLater(r.half, bs, f.half, rest, more, ReadOnce(Reader(f.half, rest, script), len));
    }
    FeedRefuses(r.half, used);
  }

  /** Two digits make one byte, and a digit left over helps to make one more. */
  lemma {:induction false} FeedLength(h: Half, bs: Bytes)
    requires Proper(h)
    ensures var f := Feed(h, bs);
            2 * |f.out| + (if f.half.odd then 1 else 0) <= |bs| + (if h.odd then 1 else 0)
  {
    if bs != [] {
      FeedLength(h, bs[..|bs| - 1]);
    }
  }

  /** All that a sequence of reads returns, and the reader afterwards. */
  function ReadAll(r: Reader, lens: seq<nat>): (Bytes, Reader)
    requires Proper(r.half)
    ensures Proper(ReadAll(r, lens).1.half)
  {
    if lens == [] then ([], r)
    else
      var (out, q) := ReadAll(r, lens[..|lens| - 1]);
      var last := ReadOnce(q, lens[|lens| - 1]);
      ReadStaysProper(q, lens[|lens| - 1]);
      (out + last.out, last.r)
  }

  lemma {:induction false} ReadStaysProper(r: Reader, len: nat)
    requires Proper(r.half)
    ensures Proper(ReadOnce(r, len).r.half)
    decreases |r.script|
  {
    var (bs, rest, script, err) := Pulled(r.rest, r.script, 2 * len);
    var f := Feed(r.half, bs);
    if f.ok && f.out == [] && !err {
      ReadStaysProper(Reader(f.half, rest, script), len);
    }
  }

  ghost predicate AllPositive(lens: seq<nat>) {
    forall k :: 0 <= k < |lens| ==> lens[k] > 0
  }

  lemma {:induction false} ReadsTake(r: Reader, lens: seq<nat>) returns (used: Bytes)
    requires Proper(r.half) && AllPositive(lens) && Feed(r.half, r.rest).ok
    ensures var (out, q) := ReadAll(r, lens);
            Took(r.half, r.rest, used, out, q.half, q.rest)
  {
    if lens == [] {
      used := [];
      assert r.rest == [] + r.rest;
    } else {
      var init, len := lens[..|lens| - 1], lens[|lens| - 1];
      var before := ReadsTake(r, init);
      var (out, q) := ReadAll(r, init);
      TookRest(r.half, r.rest, before, out, q.half, q.rest);
      var more := ReadTakes(q, len);
      var last := ReadOnce(q, len);
      TookBoth(r.half, r.rest, before, out, q.half, q.rest, more, last.out, last.r.half, last.r.rest);
      used := before + more;
    }
  }

  /** Main result: whatever was written in whatever pieces, however line breaks were added or
      removed on the way, however the bytes arrive, whatever errors come with them, and however
      large the buffers are: what is read is what was written, as far as the bytes have come. */
  lemma {:induction false} HexIsTransparent(writes: seq<Bytes>, wire: Bytes, script: seq<Delivery>, lens: seq<nat>)
    requires Arrives(wire, writes) && AllPositive(lens)
    ensures var (out, q) := ReadAll(Reader(Half(0, false), wire, script), lens);
            out <= Flat(writes) && (q.rest == [] ==> out == Flat(writes))
  {
    var r := Reader(Half(0, false), wire, script);
    ArrivedDecodes(wire, writes);
    var used := ReadsTake(r, lens);
    var (out, q) := ReadAll(r, lens);
    TookRest(r.half, wire, used, out, q.half, q.rest);
    assert out + [] == out;
  }
}
