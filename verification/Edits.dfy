/** A queue of edits to a text, applied all at once. */
module Edits {
  import opened Common

  datatype Edit = Edit(start: nat, end: nat, text: string)

  type Queue = seq<Edit>

  ghost predicate Within(q: Queue, n: nat) {
    forall k :: 0 <= k < |q| ==> q[k].start <= q[k].end <= n
  }

  // ----- the order of edits -----

  predicate Less(a: Edit, b: Edit) {
    if a.start != b.start then a.start < b.start else a.end < b.end
  }

  /** e goes behind everything that is not after it. */
  function Placed(s: Queue, e: Edit): (r: Queue)
    ensures |r| == |s| + 1
  {
    if s != [] && Less(e, s[|s| - 1]) then Placed(s[..|s| - 1], e) + [s[|s| - 1]] else s + [e]
  }

  /** The queue, sorted stably. */
  function Sorted(q: Queue): (r: Queue)
    ensures |r| == |q|
  {
    if q == [] then [] else Placed(Sorted(q[..|q| - 1]), q[|q| - 1])
  }

  ghost predicate InOrder(s: Queue) {
    forall i, j :: 0 <= i < j < |s| ==> !Less(s[j], s[i])
  }

  lemma {:induction false} PlacedInOrder(s: Queue, e: Edit)
    requires InOrder(s)
    ensures InOrder(Placed(s, e)) && multiset(Placed(s, e)) == multiset(s) + multiset{e}
  {
    if s != [] && Less(e, s[|s| - 1]) {
      var init, last := s[..|s| - 1], s[|s| - 1];
      PlacedInOrder(init, e);
      assert s == init + [last];
      forall x | x in Placed(init, e) ensures !Less(last, x) {
        NotAfterLast(s, e, x);
      }
    } else {
      assert s + [e] == Placed(s, e);
    }
  }

  /** Nothing placed before the last edit belongs behind it. */
  lemma {:induction false} NotAfterLast(s: Queue, e: Edit, x: Edit)
    requires s != [] && InOrder(s) && Less(e, s[|s| - 1])
    requires x in Placed(s[..|s| - 1], e)
    requires multiset(Placed(s[..|s| - 1], e)) == multiset(s[..|s| - 1]) + multiset{e}
    ensures !Less(s[|s| - 1], x)
  {
    var init := s[..|s| - 1];
    assert x in multiset(Placed(init, e));
    if x != e {
      assert x in init;
      var k :| 0 <= k < |init| && init[k] == x;
      assert s[k] == x;
    }
  }

  lemma {:induction false} SortedPush(q: Queue, e: Edit)
    ensures Sorted(q + [e]) == Placed(Sorted(q), e)
  {
    assert (q + [e])[..|q|] == q;
  }

  lemma {:induction false} SortedInOrder(q: Queue)
    ensures InOrder(Sorted(q)) && multiset(Sorted(q)) == multiset(q)
  {
    if q != [] {
      var init, e := q[..|q| - 1], q[|q| - 1];
      SortedInOrder(init);
      assert q == init + [e];
      assert multiset(q) == multiset(init) + multiset{e};
      SortedPush(init, e);
      PlacedInOrder(Sorted(init), e);
    }
  }

  /** The edits of exactly this stretch, in their order. */
  function At(q: Queue, start: nat, end: nat): Queue {
    if q == [] then []
    else
      var e := q[|q| - 1];
      At(q[..|q| - 1], start, end) + if e.start == start && e.end == end then [e] else []
  }

  lemma {:induction false} AtPush(q: Queue, e: Edit, start: nat, end: nat)
    ensures At(q + [e], start, end) == At(q, start, end) + if e.start == start && e.end == end then [e] else []
  {
    assert (q + [e])[..|q|] == q;
  }

  lemma {:induction false} PlacedLast(s: Queue, e: Edit, start: nat, end: nat)
    requires InOrder(s)
    ensures At(Placed(s, e), start, end) == At(s, start, end) + if e.start == start && e.end == end then [e] else []
  {
    if s != [] && Less(e, s[|s| - 1]) {
      var init, last := s[..|s| - 1], s[|s| - 1];
      assert s == init + [last];
      PlacedLast(init, e, start, end);
      AtPush(init, last, start, end);
      AtPush(Placed(init, e), last, start, end);
      assert Placed(s, e) == Placed(init, e) + [last];
    } else {
      AtPush(s, e, start, end);
      assert Placed(s, e) == s + [e];
    }
  }

  /** Sorting keeps the order of edits of the same stretch, such as insertions at one point. */
  lemma {:induction false} SortedStable(q: Queue, start: nat, end: nat)
    ensures At(Sorted(q), start, end) == At(q, start, end)
  {
    if q != [] {
      var init, e := q[..|q| - 1], q[|q| - 1];
      SortedStable(init, start, end);
      SortedInOrder(init);
      PlacedLast(Sorted(init), e, start, end);
    }
  }

  /** An insertion comes before a replacement that starts at the same point. */
  lemma {:induction false} InsertionsFirst(q: Queue, s: Queue, i: nat, j: nat)
    requires s == Sorted(q) && i < |s| && j < |s|
    requires s[i].start == s[i].end == s[j].start < s[j].end
    ensures i < j
  {
    assert InOrder(s) by {
      SortedInOrder(q);
    }
    assert Less(s[i], s[j]);
  }

  // ----- applying them -----

  /** From the text behind offset on: the edits, and what lies between them; None when two
      edits overlap. */
  function Rendered(data: string, s: Queue): Option<(string, nat)>
    requires Within(s, |data|)
  {
    if s == [] then Some(("", 0))
    else
      var r, e := Rendered(data, s[..|s| - 1]), s[|s| - 1];
      if r.None? || e.start < r.value.1 then None
      else Some((r.value.0 + data[r.value.1..e.start] + e.text, e.end))
  }

  lemma {:induction false} RenderedEnd(data: string, s: Queue)
    requires Within(s, |data|) && Rendered(data, s).Some?
    ensures Rendered(data, s).value.1 == (if s == [] then 0 else s[|s| - 1].end) <= |data|
  {
  }

  /** The text with the queued edits applied; None when they overlap. */
  function Bytes(data: string, q: Queue): Option<string>
    requires Within(q, |data|)
  {
    SortedWithin(q, |data|);
    var r := Rendered(data, Sorted(q));
    if r.None? then None
    else
      RenderedEnd(data, Sorted(q));
      Some(r.value.0 + data[r.value.1..])
  }

  lemma {:induction false} SortedWithin(q: Queue, n: nat)
    requires Within(q, n)
    ensures Within(Sorted(q), n)
  {
    SortedInOrder(q);
    var s := Sorted(q);
    forall k | 0 <= k < |s| ensures s[k].start <= s[k].end <= n {
      assert s[k] in multiset(s);
      assert s[k] in q;
    }
  }

  class Buffer {
    const data: string
    var q: Queue

    constructor (contents: string)
      ensures data == contents && q == []
    {
      data, q := contents, [];
    }

    ghost predicate Valid()
      reads this
    {
      Within(q, |data|)
    }

    /** Queues the replacement of a stretch; false, where the program panics, if it is not one. */
    method Replace(start: int, end: int, text: string) returns (ok: bool)
      requires Valid()
      modifies this
      ensures Valid() && ok == (0 <= start <= end <= |data|)
      ensures q == if ok then old(q) + [Edit(start, end, text)] else old(q)
    {
      if end < start || start < 0 || end > |data| {
        return false;
      }
      q := q + [Edit(start, end, text)];
      ok := true;
    }

    method Insert(pos: int, text: string) returns (ok: bool)
      requires Valid()
      modifies this
      ensures Valid() && ok == (0 <= pos <= |data|)
      ensures q == if ok then old(q) + [Edit(pos, pos, text)] else old(q)
    {
      if pos < 0 || pos > |data| {
        return false;
      }
      q := q + [Edit(pos, pos, text)];
      ok := true;
    }

    method Delete(start: int, end: int) returns (ok: bool)
      requires Valid()
      modifies this
      ensures Valid() && ok == (0 <= start <= end <= |data|)
      ensures q == if ok then old(q) + [Edit(start, end, "")] else old(q)
    {
      ok := Replace(start, end, "");
    }

    /** Sorts the queue in place and applies it. */
    method Apply() returns (r: Option<string>)
      requires Valid()
      modifies this
      ensures Valid() && q == Sorted(old(q)) && r == Bytes(data, old(q))
    {
      SortedWithin(q, |data|);
      q := Sorted(q);
      r := Render(data, q);
    }
  }

  method Render(data: string, q: Queue) returns (r: Option<string>)
    requires Within(q, |data|)
    ensures var x := Rendered(data, q);
            if x.None? then r == None else x.value.1 <= |data| && r == Some(x.value.0 + data[x.value.1..])
  {
    var text: string := "";
    var offset: nat := 0;
    for i := 0 to |q|
      invariant offset <= |data| && Within(q[..i], |data|) && Rendered(data, q[..i]) == Some((text, offset))
    {
      var e := q[i];
      assert q[..i + 1][..i] == q[..i];
      if e.start < offset {
        Overlaps(data, q, i + 1);
        return None;
      }
      text := text + data[offset..e.start];
      offset := e.end;
      text := text + e.text;
    }
    assert q[..|q|] == q;
    r := Some(text + data[offset..]);
  }

  lemma {:induction false} Overlaps(data: string, s: Queue, k: nat)
    requires Within(s, |data|) && k <= |s| && Rendered(data, s[..k]).None?
    ensures Rendered(data, s).None?
  {
    if k < |s| {
      assert s[..|s| - 1][..k] == s[..k];
      Overlaps(data, s[..|s| - 1], k);
    } else {
      assert s[..k] == s;
    }
  }

  // ----- when it works -----

  predicate Disjoint(a: Edit, b: Edit) {
    a.end <= b.start || b.end <= a.start
  }

  ghost predicate AllDisjoint(q: Queue) {
    forall i, j :: 0 <= i < j < |q| ==> Disjoint(q[i], q[j])
  }

  ghost predicate Chained(s: Queue) {
    forall i, j :: 0 <= i < j < |s| ==> s[i].end <= s[j].start
  }

  lemma {:induction false} RenderedIffChained(data: string, s: Queue)
    requires Within(s, |data|)
    ensures Rendered(data, s).Some? <==> Chained(s)
  {
    if s != [] {
      var init, e := s[..|s| - 1], s[|s| - 1];
      RenderedIffChained(data, init);
      if Rendered(data, s).Some? {
        RenderedEnd(data, init);
        forall i, j | 0 <= i < j < |s| ensures s[i].end <= s[j].start {
          if j == |s| - 1 {
            if i < |init| - 1 {
              assert init[i].end <= init[|init| - 1].start;
            }
          } else {
            assert init[i].end <= init[j].start;
          }
        }
      }
      if Chained(s) {
        assert Chained(init);
        RenderedEnd(data, init);
        if init != [] {
          assert s[|init| - 1].end <= s[|s| - 1].start;
        }
      }
    }
  }

  ghost predicate AllApart(s: Queue, f: Edit) {
    forall k :: 0 <= k < |s| ==> Disjoint(s[k], f)
  }

  lemma {:induction false} EachPushed(s: Queue, e: Edit, f: Edit)
    ensures AllApart(s + [e], f) <==> AllApart(s, f) && Disjoint(e, f)
    ensures AllDisjoint(s + [e]) <==> AllDisjoint(s) && AllApart(s, e)
  {
    var t := s + [e];
    if AllApart(t, f) {
      assert Disjoint(t[|s|], f);
      forall k | 0 <= k < |s| ensures Disjoint(s[k], f) {
        assert Disjoint(t[k], f);
      }
    }
    if AllDisjoint(t) {
      forall k | 0 <= k < |s| ensures Disjoint(s[k], e) {
        assert Disjoint(t[k], t[|s|]);
      }
      forall i, j | 0 <= i < j < |s| ensures Disjoint(s[i], s[j]) {
        assert Disjoint(t[i], t[j]);
      }
    }
  }

  lemma {:induction false} PlacedApart(s: Queue, e: Edit, f: Edit)
    ensures AllApart(Placed(s, e), f) <==> AllApart(s, f) && Disjoint(e, f)
  {
    if s != [] && Less(e, s[|s| - 1]) {
      var init, last := s[..|s| - 1], s[|s| - 1];
      PlacedApart(init, e, f);
      EachPushed(Placed(init, e), last, f);
      EachPushed(init, last, f);
      assert s == init + [last];
    } else {
      assert Placed(s, e) == s + [e];
      EachPushed(s, e, f);
    }
  }

  lemma {:induction false} PlacedDisjoint(s: Queue, e: Edit)
    ensures AllDisjoint(Placed(s, e)) <==> AllDisjoint(s) && AllApart(s, e)
  {
    if s != [] && Less(e, s[|s| - 1]) {
      var init, last := s[..|s| - 1], s[|s| - 1];
      PlacedDisjoint(init, e);
      EachPushed(Placed(init, e), last, e);
      EachPushed(init, last, e);
      PlacedApart(init, e, last);
      assert s == init + [last];
    } else {
      assert Placed(s, e) == s + [e];
      EachPushed(s, e, e);
    }
  }

  lemma {:induction false} SortedApart(q: Queue, f: Edit)
    ensures AllApart(Sorted(q), f) <==> AllApart(q, f)
  {
    if q != [] {
      var init, e := q[..|q| - 1], q[|q| - 1];
      assert q == init + [e];
      SortedApart(init, f);
      SortedPush(init, e);
      PlacedApart(Sorted(init), e, f);
      EachPushed(init, e, f);
    }
  }

  lemma {:induction false} SortedDisjoint(q: Queue)
    ensures AllDisjoint(Sorted(q)) <==> AllDisjoint(q)
  {
    if q != [] {
      var init, e := q[..|q| - 1], q[|q| - 1];
      assert q == init + [e];
      SortedDisjoint(init);
      SortedPush(init, e);
      PlacedDisjoint(Sorted(init), e);
      SortedApart(init, e);
      EachPushed(init, e, e);
    }
  }

  lemma {:induction false} ChainedIffDisjoint(s: Queue, n: nat)
    requires InOrder(s) && Within(s, n)
    ensures Chained(s) <==> AllDisjoint(s)
  {
    if AllDisjoint(s) {
      forall i, j | 0 <= i < j < |s| ensures s[i].end <= s[j].start {
        assert Disjoint(s[i], s[j]) && !Less(s[j], s[i]);
      }
    }
  }

  /** Main result: the edits can be applied exactly when no two of them overlap. */
  lemma {:induction false} AppliesIffDisjoint(data: string, q: Queue)
    requires Within(q, |data|)
    ensures Bytes(data, q).Some? <==> AllDisjoint(q)
  {
    SortedWithin(q, |data|);
    SortedInOrder(q);
    RenderedIffChained(data, Sorted(q));
    ChainedIffDisjoint(Sorted(q), |data|);
    SortedDisjoint(q);
  }

  // ----- what it gives -----

  function ApplyOne(text: string, e: Edit): string
    requires e.start <= e.end <= |text|
  {
    text[..e.start] + e.text + text[e.end..]
  }

  /** The edits applied one at a time, the last one first, so that none moves another. */
  function OneByOne(data: string, s: Queue): Option<string>
    decreases |s|
  {
    if s == [] then Some(data)
    else
      var e := s[|s| - 1];
      if e.start <= e.end <= |data| then OneByOne(ApplyOne(data, e), s[..|s| - 1]) else None
  }

  lemma {:induction false} FrontOnly(a: string, b: string, s: Queue, k: nat)
    requires k <= |a| && k <= |b| && a[..k] == b[..k]
    requires Within(s, |a|) && Within(s, |b|) && Within(s, k)
    ensures Rendered(a, s) == Rendered(b, s)
  {
    if s != [] {
      var init, e := s[..|s| - 1], s[|s| - 1];
      FrontOnly(a, b, init, k);
      if Rendered(a, init).Some? && e.start >= Rendered(a, init).value.1 {
        var n := Rendered(a, init).value.1;
        assert a[n..e.start] == a[..k][n..e.start] && b[n..e.start] == b[..k][n..e.start];
      }
    }
  }

  /** All at once is the same as one at a time, last to first. */
  lemma {:induction false} AllAtOnce(data: string, s: Queue)
    requires Within(s, |data|) && Chained(s)
    ensures Rendered(data, s).Some? && Rendered(data, s).value.1 <= |data|
    ensures OneByOne(data, s) == Some(Rendered(data, s).value.0 + data[Rendered(data, s).value.1..])
    decreases |s|
  {
    RenderedIffChained(data, s);
    RenderedEnd(data, s);
    if s == [] {
      assert "" + data[0..] == data;
    } else {
      var init, e := s[..|s| - 1], s[|s| - 1];
      var next := ApplyOne(data, e);
      assert forall k :: 0 <= k < |init| ==> init[k] == s[k] && s[k].end <= s[|s| - 1].start;
      assert Chained(init);
      AllAtOnce(next, init);
      FrontOnly(next, data, init, e.start);
      RenderedEnd(data, init);
      var r := Rendered(data, init).value;
      assert r.1 <= e.start;
      TextAfter(data, e, r.0, r.1);
    }
  }

  /** Text in front, then the text that one edit yields from n on. */
  lemma {:induction false} TextAfter(data: string, e: Edit, front: string, n: nat)
    requires n <= e.start <= e.end <= |data|
    ensures front + ApplyOne(data, e)[n..] == front + data[n..e.start] + e.text + data[e.end..]
  {
    assert ApplyOne(data, e)[n..] == data[n..e.start] + e.text + data[e.end..];
  }

  lemma {:induction false} BytesOneByOne(data: string, q: Queue)
    requires Within(q, |data|) && AllDisjoint(q)
    ensures Bytes(data, q) == OneByOne(data, Sorted(q))
  {
    SortedWithin(q, |data|);
    SortedInOrder(q);
    SortedDisjoint(q);
    ChainedIffDisjoint(Sorted(q), |data|);
    AllAtOnce(data, Sorted(q));
  }

  function Growth(q: Queue): int {
    if q == [] then 0
    else
      var e := q[|q| - 1];
      Growth(q[..|q| - 1]) + |e.text| - (e.end - e.start)
  }

  lemma {:induction false} PlacedGrowth(s: Queue, e: Edit)
    ensures Growth(Placed(s, e)) == Growth(s) + |e.text| - (e.end - e.start)
  {
    if s != [] && Less(e, s[|s| - 1]) {
      PlacedGrowth(s[..|s| - 1], e);
      var r := Placed(s[..|s| - 1], e);
      assert (r + [s[|s| - 1]])[..|r|] == r;
    } else {
      assert (s + [e])[..|s|] == s;
    }
  }

  lemma {:induction false} SortedGrowth(q: Queue)
    ensures Growth(Sorted(q)) == Growth(q)
  {
    if q != [] {
      SortedGrowth(q[..|q| - 1]);
      PlacedGrowth(Sorted(q[..|q| - 1]), q[|q| - 1]);
    }
  }

  lemma {:induction false} RenderedLength(data: string, s: Queue)
    requires Within(s, |data|) && Rendered(data, s).Some?
    ensures |Rendered(data, s).value.0| == Rendered(data, s).value.1 + Growth(s)
  {
    if s != [] {
      RenderedLength(data, s[..|s| - 1]);
    }
  }

  /** The length changes by the edits' changes of size. */
  lemma {:induction false} BytesLength(data: string, q: Queue)
    requires Within(q, |data|) && Bytes(data, q).Some?
    ensures |Bytes(data, q).value| == |data| + Growth(q)
  {
    SortedWithin(q, |data|);
    SortedGrowth(q);
    RenderedLength(data, Sorted(q));
    RenderedEnd(data, Sorted(q));
  }

  /** Sorting again changes nothing, so that applying twice gives the same text. */
  lemma {:induction false} SortedStays(s: Queue)
    requires InOrder(s)
    ensures Sorted(s) == s
  {
    if s != [] {
      var init, e := s[..|s| - 1], s[|s| - 1];
      assert init + [e] == s;
      assert forall i, j :: 0 <= i < j < |init| ==> !Less(s[j], s[i]);
      SortedStays(init);
      SortedPush(init, e);
      assert init != [] ==> !Less(s[|s| - 1], s[|s| - 2]);
    }
  }
}
