/** Matching syntax trees against patterns with wildcards, and substituting for the wildcards. */
module Patterns {
  import opened Common

  /** The kinds of syntax nodes told apart: calls, selectors, other expressions, and nodes
      that are no expressions. */
  datatype Kind = Call | Selector | OtherExpr(id: nat) | OtherNode(id: nat)

  /** A syntax tree as the matcher sees it: identifiers, nodes with their fields, lists (nil
      or not), positions, object pointers, and other data. */
  datatype Val =
    | Nil
    | Ident(name: string, at: nat)
    | Node(kind: Kind, fields: seq<Val>)
    | List(absent: bool, elems: seq<Val>)
    | Pos(n: nat)
    | Obj(id: nat)
    | Tok(text: string)

  type Bindings = map<string, Val>

  const SEL := 1
  const ELLIPSIS := 3

  /** A single lower-case letter, whatever the letters are. */
  predicate IsWildcard(low: char -> bool, s: string) {
    |s| == 1 && low(s[0])
  }

  predicate IsExpr(v: Val) {
    v.Ident? || (v.Node? && !v.kind.OtherNode?)
  }

  /** Whether the call has dots after its last argument. */
  predicate HasDots(fields: seq<Val>) {
    |fields| > ELLIPSIS && fields[ELLIPSIS].Pos? && fields[ELLIPSIS].n != 0
  }

  /** Matching without wildcards: the same tree up to positions and objects. */
  predicate Same(p: Val, v: Val)
    decreases v, 0
  {
    match v
    case Nil => p.Nil?
    case Ident(name, _) => p.Ident? && p.name == name
    case Node(kind, fields) =>
      p.Node? && p.kind == kind && (kind == Call ==> HasDots(p.fields) == HasDots(fields)) && SameAll(p.fields, fields)
    case List(_, elems) => p.List? && SameAll(p.elems, elems)
    case Pos(_) => p.Pos?
    case Obj(_) => p.Obj?
    case Tok(text) => p == v
  }

  predicate SameAll(ps: seq<Val>, vs: seq<Val>)
    decreases vs
  {
    |ps| == |vs| && (vs == [] || (Same(ps[0], vs[0]) && SameAll(ps[1..], vs[1..])))
  }

  /** Matching with wildcards: the bindings, or None when val does not match. */
  function Match(low: char -> bool, m: Bindings, p: Val, v: Val): Option<Bindings>
    decreases v, 0
  {
    if p.Ident? && IsWildcard(low, p.name) && IsExpr(v) then
      if p.name !in m then Some(m[p.name := v])
      else if Same(m[p.name], v) then Some(m) else None
    else
      match v
      case Node(kind, fields) =>
        if p.Node? && p.kind == kind && (kind == Call ==> HasDots(p.fields) == HasDots(fields)) then
          MatchAll(low, m, kind == Selector, 0, p.fields, fields)
        else None
      case List(_, elems) => if p.List? then MatchAll(low, m, false, 0, p.elems, elems) else None
      case _ => if Same(p, v) then Some(m) else None
  }

  /** Fields from the i-th on; the name selected by a selector is no wildcard. */
  function MatchAll(low: char -> bool, m: Bindings, sel: bool, i: nat, ps: seq<Val>, vs: seq<Val>): Option<Bindings>
    decreases vs
  {
    if |ps| != |vs| then None
    else if vs == [] then Some(m)
    else if sel && i == SEL then
      if Same(ps[0], vs[0]) then MatchAll(low, m, sel, i + 1, ps[1..], vs[1..]) else None
    else
      var r := Match(low, m, ps[0], vs[0]);
      if r.None? then None else MatchAll(low, r.value, sel, i + 1, ps[1..], vs[1..])
  }

  function NewPos(n: nat, pos: Option<nat>): nat {
    if pos.Some? && n != 0 then pos.value else n
  }

  /** A copy of p with its wildcards replaced, and with pos for its positions. */
  function Subst(low: char -> bool, m: Bindings, p: Val, pos: Option<nat>): Val
    decreases p, 0
  {
    match p
    case Nil => Nil
    case Ident(name, at) => if IsWildcard(low, name) && name in m then m[name] else Ident(name, NewPos(at, pos))
    case Node(kind, fields) => Node(kind, SubstAll(low, m, kind == Selector, 0, fields, pos))
    case List(absent, elems) => List(absent, SubstAll(low, m, false, 0, elems, pos))
    case Pos(n) => Pos(NewPos(n, pos))
    case Obj(_) => p
    case Tok(_) => p
  }

  function SubstAll(low: char -> bool, m: Bindings, sel: bool, i: nat, ps: seq<Val>, pos: Option<nat>): (r: seq<Val>)
    ensures |r| == |ps|
    decreases ps
  {
    if ps == [] then []
    else [Subst(low, if sel && i == SEL then map[] else m, ps[0], pos)] + SubstAll(low, m, sel, i + 1, ps[1..], pos)
  }

  // ----- the program -----

  /** The bindings made so far. */
  class Matcher {
    const low: char -> bool
    var m: Bindings

    constructor (low: char -> bool)
      ensures m == map[] && this.low == low
    {
      this.low := low;
      m := map[];
    }

    method DoMatch(p: Val, v: Val) returns (ok: bool)
      modifies this
      ensures ok == Match(low, old(m), p, v).Some?
      ensures ok ==> m == Match(low, old(m), p, v).value
      decreases v, 0
    {
      if p.Ident? && IsWildcard(low, p.name) && IsExpr(v) {
        if p.name in m {
          return Same(m[p.name], v);
        }
        m := m[p.name := v];
        return true;
      }
      match v
      case Node(kind, fields) =>
        if !p.Node? || p.kind != kind {
          return false;
        }
        if kind == Call && HasDots(p.fields) != HasDots(fields) {
          return false;
        }
        ok := DoMatchAll(kind == Selector, p.fields, fields);
      case List(_, elems) =>
        if !p.List? {
          return false;
        }
        ok := DoMatchAll(false, p.elems, elems);
      case _ => ok := Same(p, v);
    }

    method DoMatchAll(sel: bool, ps: seq<Val>, vs: seq<Val>) returns (ok: bool)
      modifies this
      ensures ok == MatchAll(low, old(m), sel, 0, ps, vs).Some?
      ensures ok ==> m == MatchAll(low, old(m), sel, 0, ps, vs).value
      decreases vs
    {
      if |ps| != |vs| {
        return false;
      }
      var i := 0;
      while i < |vs|
        invariant 0 <= i <= |vs|
        invariant MatchAll(low, m, sel, i, ps[i..], vs[i..]) == MatchAll(low, old(m), sel, 0, ps, vs)
      {
        assert ps[i..][1..] == ps[i + 1..] && vs[i..][1..] == vs[i + 1..];
        if sel && i == SEL {
          ok := Same(ps[i], vs[i]);
        } else {
          ok := DoMatch(ps[i], vs[i]);
        }
        if !ok {
          return false;
        }
        i := i + 1;
      }
      ok := true;
    }
  }

  // ----- sameness -----

  lemma {:induction false} SameSelf(v: Val)
    ensures Same(v, v)
    decreases v, 0
  {
    match v
    case Node(_, fields) => SameSelves(fields);
    case List(_, elems) => SameSelves(elems);
    case _ =>
  }

  lemma {:induction false} SameSelves(vs: seq<Val>)
    ensures SameAll(vs, vs)
    decreases vs
  {
    if vs != [] {
      SameSelf(vs[0]);
      SameSelves(vs[1..]);
    }
  }

  /** Two trees that are the same as a third are the same. */
  lemma {:induction false} SameToo(p: Val, q: Val, v: Val)
    requires Same(p, v)
    ensures Same(q, v) ==> Same(p, q) && Same(q, p)
    ensures Same(v, q) ==> Same(p, q)
    decreases v, 0
  {
    match v
    case Node(_, fields) =>
      if q.Node? {
        SameTooAll(p.fields, q.fields, fields);
      }
    case List(_, elems) =>
      if q.List? {
        SameTooAll(p.elems, q.elems, elems);
      }
    case _ =>
  }

  lemma {:induction false} SameTooAll(ps: seq<Val>, qs: seq<Val>, vs: seq<Val>)
    requires SameAll(ps, vs)
    ensures SameAll(qs, vs) ==> SameAll(ps, qs) && SameAll(qs, ps)
    ensures SameAll(vs, qs) ==> SameAll(ps, qs)
    decreases vs
  {
    if vs != [] && |qs| == |vs| {
      SameToo(ps[0], qs[0], vs[0]);
      SameTooAll(ps[1..], qs[1..], vs[1..]);
    }
  }

  /** A tree without its positions and objects, but for whether a call has dots. */
  function Bare(v: Val): Val
    decreases v, 0
  {
    match v
    case Nil => Nil
    case Ident(name, _) => Ident(name, 0)
    case Node(kind, fields) => Node(kind, BareAll(kind == Call, 0, fields))
    case List(_, elems) => List(false, BareAll(false, 0, elems))
    case Pos(_) => Pos(0)
    case Obj(_) => Obj(0)
    case Tok(text) => Tok(text)
  }

  function BareAll(call: bool, i: nat, vs: seq<Val>): (r: seq<Val>)
    ensures |r| == |vs|
    decreases vs
  {
    if vs == [] then []
    else
      var dots := call && i == ELLIPSIS && vs[0].Pos? && vs[0].n != 0;
      [if dots then Pos(1) else Bare(vs[0])] + BareAll(call, i + 1, vs[1..])
  }

  /** The dots of the call whose fields from the i-th on are vs. */
  predicate DotsFrom(i: nat, vs: seq<Val>) {
    i <= ELLIPSIS < i + |vs| && vs[ELLIPSIS - i].Pos? && vs[ELLIPSIS - i].n != 0
  }

  /** Trees are the same exactly when nothing but positions and objects tells them apart. */
  lemma {:induction false} SameIffBare(p: Val, v: Val)
    ensures Same(p, v) <==> Bare(p) == Bare(v)
    decreases v, 0
  {
    match v
    case Node(kind, fields) =>
      if p.Node? && p.kind == kind {
        SameAllIffBare(kind == Call, 0, p.fields, fields);
      }
    case List(_, elems) =>
      if p.List? {
        SameAllIffBare(false, 0, p.elems, elems);
      }
    case _ =>
  }

  lemma {:induction false} SameAllIffBare(call: bool, i: nat, ps: seq<Val>, vs: seq<Val>)
    ensures SameAll(ps, vs) && (call ==> DotsFrom(i, ps) == DotsFrom(i, vs)) <==>
            BareAll(call, i, ps) == BareAll(call, i, vs)
    decreases vs
  {
    if vs != [] && |ps| == |vs| {
      SameIffBare(ps[0], vs[0]);
      SameAllIffBare(call, i + 1, ps[1..], vs[1..]);
      BareFirst(call, i, ps);
      BareFirst(call, i, vs);
    }
  }

  lemma {:induction false} BareFirst(call: bool, i: nat, vs: seq<Val>)
    requires vs != []
    ensures BareAll(call, i, vs)[0] == if call && i == ELLIPSIS && DotsFrom(i, vs) then Pos(1) else Bare(vs[0])
    ensures BareAll(call, i, vs)[1..] == BareAll(call, i + 1, vs[1..])
    ensures i != ELLIPSIS ==> DotsFrom(i, vs) == DotsFrom(i + 1, vs[1..])
    ensures i == ELLIPSIS ==> !DotsFrom(i + 1, vs[1..])
  {
  }

  // ----- matching, then substituting -----

  ghost predicate Extends(m: Bindings, n: Bindings) {
    forall x :: x in m ==> x in n && n[x] == m[x]
  }

  /** Bindings are only added, and every wildcard that was matched is bound. */
  lemma {:induction false} MatchExtends(low: char -> bool, m: Bindings, p: Val, v: Val)
    requires Match(low, m, p, v).Some?
    ensures Extends(m, Match(low, m, p, v).value)
    decreases v, 0
  {
    if !(p.Ident? && IsWildcard(low, p.name) && IsExpr(v)) {
      match v
      case Node(kind, fields) => MatchAllExtends(low, m, kind == Selector, 0, p.fields, fields);
      case List(_, elems) => MatchAllExtends(low, m, false, 0, p.elems, elems);
      case _ =>
    }
  }

  lemma {:induction false} MatchAllExtends(low: char -> bool, m: Bindings, sel: bool, i: nat, ps: seq<Val>,
                                           vs: seq<Val>)
    requires MatchAll(low, m, sel, i, ps, vs).Some?
    ensures Extends(m, MatchAll(low, m, sel, i, ps, vs).value)
    decreases vs
  {
    if vs != [] {
      if sel && i == SEL {
        MatchAllExtends(low, m, sel, i + 1, ps[1..], vs[1..]);
      } else {
        MatchExtends(low, m, ps[0], vs[0]);
        MatchAllExtends(low, Match(low, m, ps[0], vs[0]).value, sel, i + 1, ps[1..], vs[1..]);
      }
    }
  }

  /** The position given is a position. */
  predicate Placeable(pos: Option<nat>) {
    pos.Some? ==> pos.value != 0
  }

  /** Substituting nothing changes only positions. */
  lemma {:induction false} SubstNothing(low: char -> bool, p: Val, pos: Option<nat>)
    requires Placeable(pos)
    ensures Same(Subst(low, map[], p, pos), p)
    decreases p, 0
  {
    match p
    case Node(kind, fields) =>
      SubstNothings(low, kind == Selector, 0, fields, pos);
      DotsStay(low, map[], kind == Selector, fields, pos);
    case List(_, elems) => SubstNothings(low, false, 0, elems, pos);
    case _ =>
  }

  lemma {:induction false} SubstNothings(low: char -> bool, sel: bool, i: nat, ps: seq<Val>, pos: Option<nat>)
    requires Placeable(pos)
    ensures SameAll(SubstAll(low, map[], sel, i, ps, pos), ps)
    decreases ps
  {
    if ps != [] {
      SubstNothing(low, ps[0], pos);
      SubstNothings(low, sel, i + 1, ps[1..], pos);
    }
  }

  lemma {:induction false} SubstAt(low: char -> bool, m: Bindings, sel: bool, i: nat, ps: seq<Val>, pos: Option<nat>,
                                   k: nat)
    requires k < |ps|
    decreases k
    ensures SubstAll(low, m, sel, i, ps, pos)[k] == Subst(low, if sel && i + k == SEL then map[] else m, ps[k], pos)
  {
    if k > 0 {
      SubstAt(low, m, sel, i + 1, ps[1..], pos, k - 1);
    }
  }

  /** Wildcards stand for expressions. */
  ghost predicate ExprBindings(m: Bindings) {
    forall x :: x in m ==> IsExpr(m[x])
  }

  /** A copied call has dots exactly when the call has, if and only if the position given is
      one or the call has none: dots are a position, and no wildcard stands for one. */
  lemma {:induction false} DotsStay(low: char -> bool, m: Bindings, sel: bool, ps: seq<Val>, pos: Option<nat>)
    requires ExprBindings(m)
    ensures HasDots(SubstAll(low, m, sel, 0, ps, pos)) == HasDots(ps) <==> Placeable(pos) || !HasDots(ps)
  {
    if |ps| > ELLIPSIS {
      SubstAt(low, m, sel, 0, ps, pos, ELLIPSIS);
    }
  }

  lemma {:induction false} MatchBindsExprs(low: char -> bool, m: Bindings, p: Val, v: Val)
    requires Match(low, m, p, v).Some? && ExprBindings(m)
    ensures ExprBindings(Match(low, m, p, v).value)
    decreases v, 0
  {
    if !(p.Ident? && IsWildcard(low, p.name) && IsExpr(v)) {
      match v
      case Node(kind, fields) => MatchAllBindsExprs(low, m, kind == Selector, 0, p.fields, fields);
      case List(_, elems) => MatchAllBindsExprs(low, m, false, 0, p.elems, elems);
      case _ =>
    }
  }

  lemma {:induction false} MatchAllBindsExprs(low: char -> bool, m: Bindings, sel: bool, i: nat, ps: seq<Val>,
                                              vs: seq<Val>)
    requires MatchAll(low, m, sel, i, ps, vs).Some? && ExprBindings(m)
    ensures ExprBindings(MatchAll(low, m, sel, i, ps, vs).value)
    decreases vs
  {
    if vs != [] {
      if sel && i == SEL {
        MatchAllBindsExprs(low, m, sel, i + 1, ps[1..], vs[1..]);
      } else {
        MatchBindsExprs(low, m, ps[0], vs[0]);
        MatchAllBindsExprs(low, Match(low, m, ps[0], vs[0]).value, sel, i + 1, ps[1..], vs[1..]);
      }
    }
  }

  /** A single lower-case letter matches the expressions, any other name only itself. */
  lemma {:induction false} NameMatches(low: char -> bool, name: string, at: nat, v: Val)
    ensures Match(low, map[], Ident(name, at), v).Some? <==>
            if exists c :: low(c) && name == [c] then IsExpr(v) else v.Ident? && v.name == name
  {
    assert IsWildcard(low, name) ==> low(name[0]) && name == [name[0]];
  }

  /** The name that a selector selects is no wildcard. */
  lemma {:induction false} SelectorNames(low: char -> bool, m: Bindings, ps: seq<Val>, vs: seq<Val>, pos: Option<nat>)
    requires |ps| > SEL
    ensures Match(low, m, Node(Selector, ps), Node(Selector, vs)).Some? ==> |vs| == |ps| && Same(ps[SEL], vs[SEL])
    ensures Placeable(pos) ==> Same(Subst(low, m, Node(Selector, ps), pos).fields[SEL], ps[SEL])
  {
    SubstAt(low, m, true, 0, ps, pos, SEL);
    if Placeable(pos) {
      SubstNothing(low, ps[SEL], pos);
    }
    if Match(low, m, Node(Selector, ps), Node(Selector, vs)).Some? {
      assert MatchAll(low, m, true, 0, ps, vs).Some?;
      var n := Match(low, m, ps[0], vs[0]).value;
      assert MatchAll(low, n, true, 1, ps[1..], vs[1..]).Some?;
      assert Same(ps[1..][0], vs[1..][0]);
    }
  }

  /** Without bindings and a position the copy is exact. */
  lemma {:induction false} SubstCopies(low: char -> bool, p: Val)
    ensures Subst(low, map[], p, None) == p
    decreases p, 0
  {
    match p
    case Node(kind, fields) => SubstCopiesAll(low, kind == Selector, 0, fields);
    case List(_, elems) => SubstCopiesAll(low, false, 0, elems);
    case _ =>
  }

  lemma {:induction false} SubstCopiesAll(low: char -> bool, sel: bool, i: nat, ps: seq<Val>)
    ensures SubstAll(low, map[], sel, i, ps, None) == ps
    decreases ps
  {
    if ps != [] {
      SubstCopies(low, ps[0]);
      SubstCopiesAll(low, sel, i + 1, ps[1..]);
    }
  }

  /** Putting the recorded bindings back into the pattern rebuilds what was matched. */
  lemma {:induction false} MatchThenSubst(low: char -> bool, m: Bindings, p: Val, v: Val, n: Bindings, pos: Option<nat>)
    requires Match(low, m, p, v).Some? && Extends(Match(low, m, p, v).value, n) && ExprBindings(n) && Placeable(pos)
    ensures Same(Subst(low, n, p, pos), v)
    decreases v, 0
  {
    if p.Ident? && IsWildcard(low, p.name) && IsExpr(v) {
      assert p.name in Match(low, m, p, v).value;
      SameSelf(v);
    } else {
      match v
      case Node(kind, fields) =>
        MatchAllThenSubst(low, m, kind == Selector, 0, p.fields, fields, n, pos);
        DotsStay(low, n, kind == Selector, p.fields, pos);
      case List(_, elems) => MatchAllThenSubst(low, m, false, 0, p.elems, elems, n, pos);
      case _ =>
    }
  }

  lemma {:induction false} MatchAllThenSubst(low: char -> bool, m: Bindings, sel: bool, i: nat, ps: seq<Val>,
                                             vs: seq<Val>, n: Bindings, pos: Option<nat>)
    requires MatchAll(low, m, sel, i, ps, vs).Some? && Extends(MatchAll(low, m, sel, i, ps, vs).value, n)
    requires ExprBindings(n) && Placeable(pos)
    ensures SameAll(SubstAll(low, n, sel, i, ps, pos), vs)
    decreases vs
  {
    if vs != [] {
      if sel && i == SEL {
        SubstNothing(low, ps[0], pos);
        SameToo(Subst(low, map[], ps[0], pos), vs[0], ps[0]);
        MatchAllThenSubst(low, m, sel, i + 1, ps[1..], vs[1..], n, pos);
      } else {
        var m1 := Match(low, m, ps[0], vs[0]).value;
        MatchAllExtends(low, m1, sel, i + 1, ps[1..], vs[1..]);
        MatchThenSubst(low, m, ps[0], vs[0], n, pos);
        MatchAllThenSubst(low, m1, sel, i + 1, ps[1..], vs[1..], n, pos);
      }
    }
  }

  // ----- substituting, then matching -----

  /** What a wildcard stands for under s. */
  function Image(s: Bindings, x: string): Val {
    if x in s then s[x] else Ident(x, 0)
  }

  ghost predicate Agrees(m: Bindings, s: Bindings) {
    forall x :: x in m ==> Same(m[x], Image(s, x))
  }

  /** Whatever can be had from the pattern by substituting expressions matches it. */
  lemma {:induction false} SubstThenMatch(low: char -> bool, m: Bindings, p: Val, v: Val, s: Bindings)
    requires Agrees(m, s) && ExprBindings(s) && Same(Subst(low, s, p, None), v)
    ensures Match(low, m, p, v).Some? && Agrees(Match(low, m, p, v).value, s)
    decreases v, 0
  {
    if p.Ident? && IsWildcard(low, p.name) {
      var x, y := p.name, Image(s, p.name);
      assert Same(y, v) && IsExpr(v);
      SameSelf(v);
      SameToo(y, v, v);
      if x in m {
        SameToo(m[x], v, y);
      }
    } else {
      match v
      case Node(kind, fields) =>
        DotsStay(low, s, kind == Selector, p.fields, None);
        SubstAllThenMatch(low, m, kind == Selector, 0, p.fields, fields, s);
      case List(_, elems) => SubstAllThenMatch(low, m, false, 0, p.elems, elems, s);
      case _ =>
    }
  }

  lemma {:induction false} SubstAllThenMatch(low: char -> bool, m: Bindings, sel: bool, i: nat, ps: seq<Val>,
                                             vs: seq<Val>, s: Bindings)
    requires Agrees(m, s) && ExprBindings(s) && SameAll(SubstAll(low, s, sel, i, ps, None), vs)
    ensures MatchAll(low, m, sel, i, ps, vs).Some? && Agrees(MatchAll(low, m, sel, i, ps, vs).value, s)
    decreases vs
  {
    if vs != [] {
      if sel && i == SEL {
        var q := Subst(low, map[], ps[0], None);
        SubstNothing(low, ps[0], None);
        SameSelf(ps[0]);
        SameToo(ps[0], q, ps[0]);
        SameToo(ps[0], vs[0], q);
        SubstAllThenMatch(low, m, sel, i + 1, ps[1..], vs[1..], s);
      } else {
        SubstThenMatch(low, m, ps[0], vs[0], s);
        SubstAllThenMatch(low, Match(low, m, ps[0], vs[0]).value, sel, i + 1, ps[1..], vs[1..], s);
      }
    }
  }

  /** Main result: a tree matches exactly when some substitution of expressions for the
      wildcards makes the pattern the same as it; and then the recorded one does. */
  lemma {:induction false} MatchIffSubst(low: char -> bool, p: Val, v: Val)
    ensures Match(low, map[], p, v).Some? <==> exists s: Bindings :: ExprBindings(s) && Same(Subst(low, s, p, None), v)
    ensures Match(low, map[], p, v).Some? ==> Same(Subst(low, Match(low, map[], p, v).value, p, None), v)
  {
    if Match(low, map[], p, v).Some? {
      MatchBindsExprs(low, map[], p, v);
      MatchThenSubst(low, map[], p, v, Match(low, map[], p, v).value, None);
    }
    if s: Bindings :| ExprBindings(s) && Same(Subst(low, s, p, None), v) {
      SubstThenMatch(low, map[], p, v, s);
    }
  }

  /** A rewriting puts the bindings of one pattern into another; where the other mentions
      the first's wildcards it does not matter which of the trees that match is taken. */
  lemma {:induction false} SubstRespectsSame(low: char -> bool, m: Bindings, n: Bindings, p: Val, pos: Option<nat>)
    requires forall x :: x in m <==> x in n
    requires forall x :: x in m ==> Same(m[x], n[x])
    requires ExprBindings(m) && ExprBindings(n) && Placeable(pos)
    ensures Same(Subst(low, m, p, pos), Subst(low, n, p, pos))
    decreases p, 0
  {
    match p
    case Node(kind, fields) =>
      SubstAllRespectsSame(low, m, n, kind == Selector, 0, fields, pos);
      DotsStay(low, m, kind == Selector, fields, pos);
      DotsStay(low, n, kind == Selector, fields, pos);
    case List(_, elems) => SubstAllRespectsSame(low, m, n, false, 0, elems, pos);
    case _ => SameSelf(Subst(low, map[], p, pos));
  }

  lemma {:induction false} SubstAllRespectsSame(low: char -> bool, m: Bindings, n: Bindings, sel: bool, i: nat,
                                                ps: seq<Val>, pos: Option<nat>)
    requires forall x :: x in m <==> x in n
    requires forall x :: x in m ==> Same(m[x], n[x])
    requires ExprBindings(m) && ExprBindings(n) && Placeable(pos)
    ensures SameAll(SubstAll(low, m, sel, i, ps, pos), SubstAll(low, n, sel, i, ps, pos))
    decreases ps
  {
    if ps != [] {
      SameSelf(Subst(low, map[], ps[0], pos));
      SubstRespectsSame(low, m, n, ps[0], pos);
      SubstAllRespectsSame(low, m, n, sel, i + 1, ps[1..], pos);
    }
  }
}
