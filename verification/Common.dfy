/** Notions that several parts share. */
module Common {

  datatype Option<T> = None | Some(value: T)

  function Min(a: nat, b: nat): nat {
    if a <= b then a else b
  }

  function Flat<T>(ss: seq<seq<T>>): seq<T> {
    if ss == [] then [] else ss[0] + Flat(ss[1..])
  }

  lemma {:induction false} FlatAppend<T>(a: seq<seq<T>>, b: seq<seq<T>>)
    ensures Flat(a + b) == Flat(a) + Flat(b)
  {
    if a == [] {
      assert a + b == b;
    } else {
      FlatAppend(a[1..], b);
      assert (a + b)[1..] == a[1..] + b;
      assert a[0] + (Flat(a[1..]) + Flat(b)) == (a[0] + Flat(a[1..])) + Flat(b);
    }
  }

  lemma {:induction false} FlatPush<T>(a: seq<seq<T>>, s: seq<T>)
    ensures Flat(a + [s]) == Flat(a) + s
  {
    FlatAppend(a, [s]);
    assert [s][1..] == [];
    assert Flat([s]) == s + [];
  }

  /** The sum of the weights: a count when all weights are 0 or 1. */
  function Weigh<T>(ps: seq<T>, w: T -> int): int {
    if ps == [] then 0 else Weigh(ps[..|ps| - 1], w) + w(ps[|ps| - 1])
  }

  lemma {:induction false} WeighMoved<T>(ps: seq<T>, c: nat, p: T, w: T -> int)
    requires c < |ps|
    ensures Weigh(ps[c := p], w) == Weigh(ps, w) - w(ps[c]) + w(p)
  {
    var n := |ps| - 1;
    if c == n {
      assert ps[c := p][..n] == ps[..n];
    } else {
      WeighMoved(ps[..n], c, p, w);
      assert ps[c := p][..n] == ps[..n][c := p];
    }
  }

  lemma {:induction false} WeighPush<T>(ps: seq<T>, p: T, w: T -> int)
    ensures Weigh(ps + [p], w) == Weigh(ps, w) + w(p)
  {
    assert (ps + [p])[..|ps|] == ps;
  }

  lemma {:induction false} WeighAll<T(!new)>(ps: seq<T>, c: nat, w: T -> int)
    requires c < |ps| && forall p: T :: w(p) >= 0
    ensures Weigh(ps, w) >= w(ps[c]) && Weigh(ps, w) >= 0
  {
    var n := |ps| - 1;
    if c < n {
      WeighAll(ps[..n], c, w);
    } else {
      WeighNatural(ps[..n], w);
    }
  }

  lemma {:induction false} WeighNatural<T(!new)>(ps: seq<T>, w: T -> int)
    requires forall p: T :: w(p) >= 0
    ensures Weigh(ps, w) >= 0
  {
    if ps != [] {
      WeighNatural(ps[..|ps| - 1], w);
    }
  }

  lemma {:induction false} WeighNone<T(!new)>(ps: seq<T>, w: T -> int)
    requires forall p: T :: w(p) >= 0
    ensures Weigh(ps, w) == 0 <==> forall i :: 0 <= i < |ps| ==> w(ps[i]) == 0
  {
    if ps != [] {
      var init := ps[..|ps| - 1];
      WeighNone(init, w);
      WeighNatural(init, w);
      assert forall i :: 0 <= i < |init| ==> init[i] == ps[i];
    }
  }
}
