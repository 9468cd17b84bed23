/** The self-delimiting encodings of the CPace key exchange. */
module Encodings {
  import opened Common

  type byte = x: int | 0 <= x < 256
  type Bytes = seq<byte>

  const DSI: Bytes := [67, 80, 97, 99, 101, 50, 53, 53]
  const DSI_ISK: Bytes := DSI + [95, 73, 83, 75]
  const BLOCK_SIZE := 128
  const MAX_LEN_PREFIX := 10

  function Pow128(k: nat): nat {
    if k == 0 then 1 else 128 * Pow128(k - 1)
  }

  // ----- prepend_len and lv_cat -----

  /** LEB128: seven bits a byte, lowest first, the top bit set on all but the last. */
  function LenBytes(n: nat): (r: Bytes)
    ensures |r| > 0
  {
    if n < 128 then [n] else [n % 128 + 128] + LenBytes(n / 128)
  }

  function PrependedLen(v: Bytes): Bytes {
    LenBytes(|v|) + v
  }

  function LvCat(vs: seq<Bytes>): Bytes {
    if vs == [] then [] else PrependedLen(vs[0]) + LvCat(vs[1..])
  }

  method PrependLen(b: Bytes, v: Bytes) returns (r: Bytes)
    ensures r == b + PrependedLen(v)
  {
    var n: nat := |v|;
    r := b;
    while true
      invariant r + LenBytes(n) == b + LenBytes(|v|)
      decreases n
    {
      if n < 128 {
        r := r + [n];
      } else {
        r := r + [n % 128 + 128];
      }
      n := n / 128;
      if n == 0 {
        break;
      }
    }
    r := r + v;
  }

  method LvCatTo(b: Bytes, vs: seq<Bytes>) returns (r: Bytes)
    ensures r == b + LvCat(vs)
  {
    r := b;
    for i := 0 to |vs|
      invariant r + LvCat(vs[i..]) == b + LvCat(vs)
    {
      assert vs[i..][1..] == vs[i + 1..];
      ghost var was := r;
      r := PrependLen(r, vs[i]);
      assert was + (PrependedLen(vs[i]) + LvCat(vs[i + 1..])) == r + LvCat(vs[i + 1..]);
    }
  }

  /** Reads a length back, and what follows it. */
  function ReadLen(bs: Bytes): Option<(nat, Bytes)> {
    if bs == [] then None
    else if bs[0] < 128 then Some((bs[0], bs[1..]))
    else
      var r := ReadLen(bs[1..]);
      if r.None? then None else Some((bs[0] - 128 + 128 * r.value.0, r.value.1))
  }

  lemma {:induction false} ReadsLen(n: nat, rest: Bytes)
    ensures ReadLen(LenBytes(n) + rest) == Some((n, rest))
  {
    if n >= 128 {
      ReadsLen(n / 128, rest);
      assert (LenBytes(n) + rest)[1..] == LenBytes(n / 128) + rest;
    }
  }

  /** A value and its end can be read off any text that starts with its encoding. */
  lemma {:induction false} PrependedLenUnique(v: Bytes, r: Bytes, w: Bytes, q: Bytes)
    requires PrependedLen(v) + r == PrependedLen(w) + q
    ensures v == w && r == q
  {
    assert PrependedLen(v) + r == LenBytes(|v|) + (v + r);
    assert PrependedLen(w) + q == LenBytes(|w|) + (w + q);
    ReadsLen(|v|, v + r);
    ReadsLen(|w|, w + q);
    assert v == (v + r)[..|v|] && r == (v + r)[|v|..];
    assert w == (w + q)[..|w|] && q == (w + q)[|w|..];
  }

  /** Equally many values, and what follows them. */
  lemma {:induction false} LvCatUnique(vs: seq<Bytes>, r: Bytes, ws: seq<Bytes>, q: Bytes)
    requires |vs| == |ws| && LvCat(vs) + r == LvCat(ws) + q
    ensures vs == ws && r == q
  {
    if vs != [] {
      LvCatFirst(vs, r);
      LvCatFirst(ws, q);
      PrependedLenUnique(vs[0], LvCat(vs[1..]) + r, ws[0], LvCat(ws[1..]) + q);
      LvCatUnique(vs[1..], r, ws[1..], q);
    } else {
      assert [] + r == r && [] + q == q;
    }
  }

  lemma {:induction false} LvCatFirst(vs: seq<Bytes>, r: Bytes)
    requires vs != []
    ensures LvCat(vs) + r == PrependedLen(vs[0]) + (LvCat(vs[1..]) + r)
  {
  }

  /** lv_cat is uniquely decodable: the number of values need not be known. */
  lemma {:induction false} LvCatInjective(vs: seq<Bytes>, ws: seq<Bytes>)
    requires LvCat(vs) == LvCat(ws)
    ensures vs == ws
  {
    if vs != [] && ws != [] {
      PrependedLenUnique(vs[0], LvCat(vs[1..]), ws[0], LvCat(ws[1..]));
      LvCatInjective(vs[1..], ws[1..]);
    } else {
      NotEmpty(vs);
      NotEmpty(ws);
    }
  }

  lemma {:induction false} NotEmpty(vs: seq<Bytes>)
    ensures LvCat(vs) == [] <==> vs == []
  {
    if vs != [] {
      assert |LvCat(vs)| >= |LenBytes(|vs[0]|)| > 0;
    }
  }

  lemma {:induction false} LvCatAppend(vs: seq<Bytes>, ws: seq<Bytes>)
    ensures LvCat(vs + ws) == LvCat(vs) + LvCat(ws)
  {
    if vs == [] {
      assert vs + ws == ws;
    } else {
      LvCatAppend(vs[1..], ws);
      assert (vs + ws)[1..] == vs[1..] + ws;
    }
  }

  // ----- how long they get -----

  lemma {:induction false} LenBytesShort(n: nat, k: nat)
    requires k > 0 && n < Pow128(k)
    ensures |LenBytes(n)| <= k
  {
    assert Pow128(1) == 128 * Pow128(0) && Pow128(k) == 128 * Pow128(k - 1);
    if n >= 128 {
      LenBytesShort(n / 128, k - 1);
    }
  }

  /** A length that fits an int of the machine needs at most ten bytes. */
  lemma {:induction false} MaxLenPrefix(n: nat)
    requires n < 0x8000_0000_0000_0000
    ensures |LenBytes(n)| <= MAX_LEN_PREFIX
  {
    assert Pow128(2) == 128 * Pow128(1) == 0x4000;
    assert Pow128(4) == 128 * Pow128(3) == 128 * (128 * Pow128(2)) == 0x1000_0000;
    assert Pow128(6) == 128 * Pow128(5) == 128 * (128 * Pow128(4)) == 0x400_0000_0000;
    assert Pow128(8) == 128 * Pow128(7) == 128 * (128 * Pow128(6)) == 0x100_0000_0000_0000;
    assert Pow128(10) == 128 * Pow128(9) == 128 * (128 * Pow128(8)) >= 0x8000_0000_0000_0000;
    LenBytesShort(n, 10);
  }

  function Total(vs: seq<Bytes>): nat {
    if vs == [] then 0 else |vs[0]| + Total(vs[1..])
  }

  lemma {:induction false} LvCatLength(vs: seq<Bytes>)
    requires forall k :: 0 <= k < |vs| ==> |vs[k]| < 0x8000_0000_0000_0000
    ensures |LvCat(vs)| <= MAX_LEN_PREFIX * |vs| + Total(vs)
  {
    if vs != [] {
      MaxLenPrefix(|vs[0]|);
      LvCatLength(vs[1..]);
    }
  }

  // ----- generator_string -----

  function Zeros(n: nat): (z: Bytes)
    ensures |z| == n
  {
    seq(n, _ => 0)
  }

  /** The padding that fills the first block of the hash. */
  function ZeroPad(prs: Bytes): nat {
    var n := |LvCat([DSI, prs])|;
    if BLOCK_SIZE - 1 - n < 0 then 0 else BLOCK_SIZE - 1 - n
  }

  function GeneratorString(prs: Bytes, ci: Bytes, sid: Bytes): Bytes {
    LvCat([DSI, prs, Zeros(ZeroPad(prs)), ci, sid])
  }

  method ComputeGeneratorString(prs: Bytes, ci: Bytes, sid: Bytes) returns (b: Bytes)
    ensures b == GeneratorString(prs, ci, sid)
  {
    b := LvCatTo([], [DSI, prs]);
    assert b == LvCat([DSI, prs]);
    var zpad := if BLOCK_SIZE - 1 - |b| < 0 then 0 else BLOCK_SIZE - 1 - |b|;
    b := LvCatTo(b, [Zeros(zpad), ci, sid]);
    LvCatAppend([DSI, prs], [Zeros(zpad), ci, sid]);
    assert [DSI, prs] + [Zeros(zpad), ci, sid] == [DSI, prs, Zeros(zpad), ci, sid];
  }

  /** The string determines the password, the channel and the session. */
  lemma {:induction false} GeneratorStringInjective(prs: Bytes, ci: Bytes, sid: Bytes, prs': Bytes, ci': Bytes,
                                                    sid': Bytes)
    requires GeneratorString(prs, ci, sid) == GeneratorString(prs', ci', sid')
    ensures prs == prs' && ci == ci' && sid == sid'
  {
    var vs, ws := [DSI, prs, Zeros(ZeroPad(prs)), ci, sid], [DSI, prs', Zeros(ZeroPad(prs')), ci', sid'];
    LvCatInjective(vs, ws);
    assert vs[1] == ws[1] && vs[3] == ws[3] && vs[4] == ws[4];
  }

  lemma {:induction false} LvCatTwo(v: Bytes, w: Bytes)
    ensures LvCat([v, w]) == PrependedLen(v) + PrependedLen(w)
  {
    LvCatOne(w);
    assert [v, w][1..] == [w];
  }

  lemma {:induction false} LvCatOne(v: Bytes)
    ensures LvCat([v]) == PrependedLen(v) && Total([v]) == |v|
  {
    assert [v][1..] == [];
    assert LvCat([v]) == PrependedLen(v) + [];
  }

  /** The first three fields fill exactly one block when the password fits, and only then. */
  lemma {:induction false} FillsOneBlock(prs: Bytes)
    ensures |LvCat([DSI, prs, Zeros(ZeroPad(prs))])| == BLOCK_SIZE <==> |prs| <= 117
    ensures |LvCat([DSI, prs, Zeros(ZeroPad(prs))])| >= BLOCK_SIZE
  {
    var z := Zeros(ZeroPad(prs));
    LvCatTwo(DSI, prs);
    LvCatAppend([DSI, prs], [z]);
    assert [DSI, prs] + [z] == [DSI, prs, z];
    LvCatOne(z);
    assert |LenBytes(|DSI|)| == 1;
    assert |LvCat([DSI, prs])| == 9 + |LenBytes(|prs|)| + |prs|;
    if |prs| >= 128 {
      assert |LenBytes(|prs|)| >= 2;
    } else {
      assert |LenBytes(|prs|)| == 1;
    }
  }

  /** The buffer allocated for the generator string is never outgrown. */
  lemma {:induction false} GeneratorBufferSuffices(prs: Bytes, ci: Bytes, sid: Bytes)
    requires |prs| + |ci| + |sid| < 0x8000_0000_0000_0000
    ensures |GeneratorString(prs, ci, sid)| <= 5 * MAX_LEN_PREFIX + |DSI| + |prs| + BLOCK_SIZE + |ci| + |sid|
  {
    var z := Zeros(ZeroPad(prs));
    var vs := [DSI, prs, z, ci, sid];
    LvCatLength(vs);
    TotalFive(DSI, prs, z, ci, sid);
  }

  lemma {:induction false} TotalFive(a: Bytes, b: Bytes, c: Bytes, d: Bytes, e: Bytes)
    ensures Total([a, b, c, d, e]) == |a| + |b| + |c| + |d| + |e|
  {
    assert [a, b, c, d, e][1..] == [b, c, d, e] && [b, c, d, e][1..] == [c, d, e];
    TotalThree(c, d, e);
  }

  lemma {:induction false} TotalThree(c: Bytes, d: Bytes, e: Bytes)
    ensures Total([c, d, e]) == |c| + |d| + |e| && Total([d, e]) == |d| + |e|
  {
    assert [c, d, e][1..] == [d, e] && [d, e][1..] == [e];
    LvCatOne(e);
  }

  // ----- o_cat and the transcript -----

  /** Whether a comes before b in lexicographic order. */
  predicate Less(a: Bytes, b: Bytes) {
    if b == [] then false
    else if a == [] then true
    else a[0] < b[0] || (a[0] == b[0] && Less(a[1..], b[1..]))
  }

  lemma {:induction false} LessTotal(a: Bytes, b: Bytes)
    ensures a != b ==> Less(a, b) != Less(b, a)
    ensures a == b ==> !Less(a, b)
  {
    if a != [] && b != [] && a[0] == b[0] {
      LessTotal(a[1..], b[1..]);
      assert a == [a[0]] + a[1..] && b == [b[0]] + b[1..];
    }
  }

  const OC: Bytes := [111, 99]

  /** The larger value first. */
  function OCat(v1: Bytes, v2: Bytes): Bytes {
    if Less(v1, v2) then OC + v2 + v1 else OC + v1 + v2
  }

  method OCatTo(b: Bytes, v1: Bytes, v2: Bytes) returns (r: Bytes)
    ensures r == b + OCat(v1, v2)
  {
    r := b + OC;
    var x, y := v1, v2;
    if Less(v1, v2) {
      x, y := v2, v1;
    }
    r := r + x;
    r := r + y;
    assert r == b + (OC + x + y);
  }

  /** The value that comes later in lexicographic order goes first. */
  lemma {:induction false} OCatLargestFirst(v1: Bytes, v2: Bytes)
    ensures exists x, y :: OCat(v1, v2) == OC + x + y && !Less(x, y) && multiset{x, y} == multiset{v1, v2}
  {
    LessTotal(v1, v2);
    if Less(v1, v2) {
      assert OCat(v1, v2) == OC + v2 + v1 && multiset{v2, v1} == multiset{v1, v2};
    } else {
      assert OCat(v1, v2) == OC + v1 + v2;
    }
  }

  /** The two parties need not agree on who is first. */
  lemma {:induction false} OCatSymmetric(v1: Bytes, v2: Bytes)
    ensures OCat(v1, v2) == OCat(v2, v1)
  {
    LessTotal(v1, v2);
  }

  datatype Role = Initiator | Responder | Symmetric

  function Transcript(role: Role, ya: Bytes, ada: Bytes, yb: Bytes, adb: Bytes): Bytes {
    if role == Symmetric then OCat(LvCat([ya, ada]), LvCat([yb, adb]))
    else LvCat([ya, ada]) + LvCat([yb, adb])
  }

  method TranscriptTo(b: Bytes, role: Role, ya: Bytes, ada: Bytes, yb: Bytes, adb: Bytes) returns (r: Bytes)
    ensures r == b + Transcript(role, ya, ada, yb, adb)
  {
    if role == Symmetric {
      var v1 := LvCatTo([], [ya, ada]);
      var v2 := LvCatTo([], [yb, adb]);
      assert v1 == LvCat([ya, ada]) && v2 == LvCat([yb, adb]);
      r := OCatTo(b, v1, v2);
    } else {
      r := LvCatTo(b, [ya, ada]);
      r := LvCatTo(r, [yb, adb]);
      assert b + LvCat([ya, ada]) + LvCat([yb, adb]) == b + (LvCat([ya, ada]) + LvCat([yb, adb]));
    }
  }

  /** An ordered transcript starts with what the initiator sent. */
  lemma {:induction false} InitiatorFirst(role: Role, ya: Bytes, ada: Bytes, yb: Bytes, adb: Bytes)
    requires role != Symmetric
    ensures PrependedLen(ya) + PrependedLen(ada) <= Transcript(role, ya, ada, yb, adb)
  {
    LvCatTwo(ya, ada);
  }

  /** An ordered transcript determines all it was made of. */
  lemma {:induction false} OrderedTranscriptUnique(ya: Bytes, ada: Bytes, yb: Bytes, adb: Bytes, ya': Bytes,
                                                   ada': Bytes, yb': Bytes, adb': Bytes)
    requires LvCat([ya, ada]) + LvCat([yb, adb]) == LvCat([ya', ada']) + LvCat([yb', adb'])
    ensures ya == ya' && ada == ada' && yb == yb' && adb == adb'
  {
    LvCatUnique([ya, ada], LvCat([yb, adb]), [ya', ada'], LvCat([yb', adb']));
    LvCatInjective([yb, adb], [yb', adb']);
    assert [ya, ada][0] == [ya', ada'][0] && [ya, ada][1] == [ya', ada'][1];
    assert [yb, adb][0] == [yb', adb'][0] && [yb, adb][1] == [yb', adb'][1];
  }

  /** A symmetric transcript determines the two messages, up to their order. */
  lemma {:induction false} SymmetricTranscriptUnique(ya: Bytes, ada: Bytes, yb: Bytes, adb: Bytes, ya': Bytes,
                                                     ada': Bytes, yb': Bytes, adb': Bytes)
    requires Transcript(Symmetric, ya, ada, yb, adb) == Transcript(Symmetric, ya', ada', yb', adb')
    ensures (ya == ya' && ada == ada' && yb == yb' && adb == adb')
         || (ya == yb' && ada == adb' && yb == ya' && adb == ada')
  {
    var v1, v2 := LvCat([ya, ada]), LvCat([yb, adb]);
    var w1, w2 := LvCat([ya', ada']), LvCat([yb', adb']);
    OCatParts(v1, v2, w1, w2);
    if v1 + v2 == w1 + w2 {
      OrderedTranscriptUnique(ya, ada, yb, adb, ya', ada', yb', adb');
    } else if v2 + v1 == w2 + w1 {
      OrderedTranscriptUnique(yb, adb, ya, ada, yb', adb', ya', ada');
    } else if v1 + v2 == w2 + w1 {
      OrderedTranscriptUnique(ya, ada, yb, adb, yb', adb', ya', ada');
    } else {
      OrderedTranscriptUnique(yb, adb, ya, ada, ya', ada', yb', adb');
    }
  }

  lemma {:induction false} OCatParts(v1: Bytes, v2: Bytes, w1: Bytes, w2: Bytes)
    requires OCat(v1, v2) == OCat(w1, w2)
    ensures v1 + v2 == w1 + w2 || v2 + v1 == w2 + w1 || v1 + v2 == w2 + w1 || v2 + v1 == w1 + w2
  {
    OCatTail(v1, v2);
    OCatTail(w1, w2);
  }

  lemma {:induction false} OCatTail(v1: Bytes, v2: Bytes)
    ensures OCat(v1, v2)[2..] == if Less(v1, v2) then v2 + v1 else v1 + v2
  {
    Behind(OC, v1, v2);
    Behind(OC, v2, v1);
  }

  lemma {:induction false} Behind(a: Bytes, x: Bytes, y: Bytes)
    ensures (a + x + y)[|a|..] == x + y
  {
  }

  /** What is hashed into the intermediate session key. */
  function SessionKeyInput(role: Role, sid: Bytes, k: Bytes, ya: Bytes, ada: Bytes, yb: Bytes, adb: Bytes): Bytes {
    LvCat([DSI_ISK, sid, k]) + Transcript(role, ya, ada, yb, adb)
  }

  /** The messages of a session key, up to their order when the roles are symmetric. */
  ghost predicate SameMessages(role: Role, ya: Bytes, ada: Bytes, yb: Bytes, adb: Bytes, ya': Bytes, ada': Bytes,
                               yb': Bytes, adb': Bytes) {
    || (ya == ya' && ada == ada' && yb == yb' && adb == adb')
    || (role == Symmetric && ya == yb' && ada == adb' && yb == ya' && adb == ada')
  }

  /** What is hashed determines the session, the shared point and the messages; only an
      ordered transcript whose first message has 111 bytes could pass for a symmetric one. */
  lemma {:induction false} SessionKeyInputUnique(role: Role, sid: Bytes, k: Bytes, ya: Bytes, ada: Bytes, yb: Bytes,
                                                 adb: Bytes, role': Role, sid': Bytes, k': Bytes, ya': Bytes,
                                                 ada': Bytes, yb': Bytes, adb': Bytes)
    requires SessionKeyInput(role, sid, k, ya, ada, yb, adb) == SessionKeyInput(role', sid', k', ya', ada', yb', adb')
    ensures sid == sid' && k == k'
    ensures role.Symmetric? == role'.Symmetric? ==> SameMessages(role, ya, ada, yb, adb, ya', ada', yb', adb')
    ensures !role.Symmetric? && role'.Symmetric? ==> |ya| == OC[0]
    ensures role.Symmetric? && !role'.Symmetric? ==> |ya'| == OC[0]
  {
    LvCatUnique([DSI_ISK, sid, k], Transcript(role, ya, ada, yb, adb),
                [DSI_ISK, sid', k'], Transcript(role', ya', ada', yb', adb'));
    assert [DSI_ISK, sid, k][1] == [DSI_ISK, sid', k'][1] && [DSI_ISK, sid, k][2] == [DSI_ISK, sid', k'][2];
    FirstByte(role, ya, ada, yb, adb);
    FirstByte(role', ya', ada', yb', adb');
    if role.Symmetric? && role'.Symmetric? {
      SymmetricTranscriptUnique(ya, ada, yb, adb, ya', ada', yb', adb');
    } else if !role.Symmetric? && !role'.Symmetric? {
      OrderedTranscriptUnique(ya, ada, yb, adb, ya', ada', yb', adb');
    }
  }

  lemma {:induction false} FirstByte(role: Role, ya: Bytes, ada: Bytes, yb: Bytes, adb: Bytes)
    ensures var t := Transcript(role, ya, ada, yb, adb);
            t != [] && if role.Symmetric? then t[0] == OC[0] else t[0] == OC[0] ==> |ya| == OC[0]
  {
    var t := Transcript(role, ya, ada, yb, adb);
    if !role.Symmetric? {
      LvCatTwo(ya, ada);
      assert t[0] == LenBytes(|ya|)[0];
    }
  }

  /** The buffer allocated for it is never outgrown. */
  lemma {:induction false} SessionKeyBufferSuffices(role: Role, sid: Bytes, k: Bytes, ya: Bytes, ada: Bytes,
                                                    yb: Bytes, adb: Bytes)
    requires |sid| + |k| + |ya| + |ada| + |yb| + |adb| < 0x8000_0000_0000_0000
    ensures |SessionKeyInput(role, sid, k, ya, ada, yb, adb)| <=
            7 * MAX_LEN_PREFIX + 2 + |DSI_ISK| + |sid| + |k| + |ya| + |ada| + |yb| + |adb|
  {
    LvCatLength([DSI_ISK, sid, k]);
    LvCatLength([ya, ada]);
    LvCatLength([yb, adb]);
    TotalThree(DSI_ISK, sid, k);
    TotalThree([], ya, ada);
    TotalThree([], yb, adb);
  }
}
