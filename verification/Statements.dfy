/** Statements, what running them means, and what they mention. */
module Statements {
  import opened Common
  import opened CTree
  import opened SideEffects

  /** Statements. `Other` is any statement not taken apart here; it may end in any way. */
  datatype CStmt =
    | Simple(s: Stmt)
    | Declare(v: Name, init: Expr)
    | Other(id: nat)
    | Break
    | Continue
    | Return(e: Expr)
    | If(c: Expr, thn: CStmt)
    | IfWithElse(c: Expr, thn: CStmt, els: CStmt)
    | Block(list: seq<CStmt>)
    | BlockNoBrace(list: seq<CStmt>)
    | For(f: ForStmt)
    | Do(body: CStmt, x: Expr)

  datatype Post = NoPost | PostExpr(e: Expr) | PostBlock(list: seq<Stmt>)
  datatype ForStmt = ForStmt(pre: Option<Expr>, cond: Option<Expr>, post: Post, body: CStmt)

  /** How running a statement ends. A loop that has not ended after the rounds it was given
      is unfinished, and so is what it is part of. */
  datatype Outcome = Normal | Broke | Continued | Returned(v: int) | WentTo(target: nat) | Unfinished

  /** What the statements not taken apart do, and how many rounds each loop is given. */
  datatype World = World(run: (nat, Store) -> (Outcome, Store), rounds: nat)

  ghost function Run(st: CStmt, s: Store, w: World, o: Ops): (Outcome, Store)
    decreases st, 2, 0
  {
    match st
    case Simple(x) => (Normal, ExecStmt(x, s, o))
    case Declare(x, e) =>
      var (v, s1) := Eval(e, s, o);
      (Normal, s1[x := v])
    case Other(id) => w.run(id, s)
    case Break => (Broke, s)
    case Continue => (Continued, s)
    case Return(e) => (Returned(Eval(e, s, o).0), Eval(e, s, o).1)
    case If(c, thn) =>
      var (v, s1) := Eval(c, s, o);
      if v != 0 then Run(thn, s1, w, o) else (Normal, s1)
    case IfWithElse(c, thn, els) =>
      var (v, s1) := Eval(c, s, o);
      if v != 0 then Run(thn, s1, w, o) else Run(els, s1, w, o)
    case Block(list) => RunList(list, s, w, o)
    case BlockNoBrace(list) => RunList(list, s, w, o)
    case For(f) => Given(RunFor(f, s, w.rounds, w, o), s)
    case Do(body, x) => Given(RunDo(body, x, s, w.rounds, w, o), s)
  }

  ghost function Given(r: Option<(Outcome, Store)>, s: Store): (Outcome, Store) {
    if r.None? then (Unfinished, s) else r.value
  }

  ghost function RunList(b: seq<CStmt>, s: Store, w: World, o: Ops): (Outcome, Store)
    decreases b, 0, 0
  {
    if b == [] then (Normal, s)
    else
      var (out, s1) := Run(b[0], s, w, o);
      if out == Normal then RunList(b[1..], s1, w, o) else (out, s1)
  }

  // ----- loops -----

  /** The clauses, then the body: a false clause leaves the loop, or skips the body of an if. */
  ghost function Tested(loop: bool, cs: seq<Expr>, body: CStmt, s: Store, w: World, o: Ops): (Outcome, Store)
    decreases body, 3, 0
  {
    var (v, s1) := EvalAll(cs, s, o);
    if v then Run(body, s1, w, o) else (if loop then Broke else Normal, s1)
  }

  function Clauses(cond: Option<Expr>): seq<Expr> {
    if cond.None? then [] else [cond.value]
  }

  ghost function RunPost(post: Post, s: Store, o: Ops): Store {
    match post
    case NoPost => s
    case PostExpr(e) => Eval(e, s, o).1
    case PostBlock(list) => Exec(list, s, o)
  }

  /** At most `fuel` rounds of a loop; None when they do not suffice. */
  ghost function RunLoop(cond: Option<Expr>, post: Post, body: CStmt, s: Store, fuel: nat, w: World, o: Ops)
    : Option<(Outcome, Store)>
    decreases body, 4, fuel
  {
    if fuel == 0 then None
    else
      var (out, s1) := Tested(true, Clauses(cond), body, s, w, o);
      if out == Broke then Some((Normal, s1))
      else if out == Normal || out == Continued then RunLoop(cond, post, body, RunPost(post, s1, o), fuel - 1, w, o)
      else Some((out, s1))
  }

  ghost function RunFor(f: ForStmt, s: Store, fuel: nat, w: World, o: Ops): Option<(Outcome, Store)>
    decreases f.body, 5, 0
  {
    RunLoop(f.cond, f.post, f.body, AfterPre(f.pre, s, o), fuel, w, o)
  }

  ghost function AfterPre(pre: Option<Expr>, s: Store, o: Ops): Store {
    if pre.None? then s else Eval(pre.value, s, o).1
  }

  /** do body while (x). */
  ghost function RunDo(body: CStmt, x: Expr, s: Store, fuel: nat, w: World, o: Ops): Option<(Outcome, Store)>
    decreases body, 4, fuel
  {
    if fuel == 0 then None
    else
      var (out, s1) := Run(body, s, w, o);
      if out == Broke then Some((Normal, s1))
      else if out == Normal || out == Continued then
        var (v, s2) := Eval(x, s1, o);
        if v == 0 then Some((Normal, s2)) else RunDo(body, x, s2, fuel - 1, w, o)
      else Some((out, s1))
  }

  /** Short-circuit evaluation of a list of clauses. */
  ghost function EvalAll(cs: seq<Expr>, s: Store, o: Ops): (bool, Store) {
    if cs == [] then (true, s)
    else
      var (v, s1) := Eval(cs[0], s, o);
      if v == 0 then (false, s1) else EvalAll(cs[1..], s1, o)
  }

  lemma {:induction false} EvalAllAppend(a: seq<Expr>, b: seq<Expr>, s: Store, o: Ops)
    ensures var (v, s1) := EvalAll(a, s, o);
            EvalAll(a + b, s, o) == if v then EvalAll(b, s1, o) else (false, s1)
  {
    if a == [] {
      assert a + b == b;
    } else {
      EvalAllAppend(a[1..], b, Eval(a[0], s, o).1, o);
      assert (a + b)[1..] == a[1..] + b;
    }
  }

  lemma {:induction false} EvalOne(c: Expr, s: Store, o: Ops)
    ensures EvalAll([c], s, o) == (Eval(c, s, o).0 != 0, Eval(c, s, o).1)
  {
    assert [c][1..] == [];
  }

  // ----- sequences -----

  function Lift(b: seq<Stmt>): (r: seq<CStmt>)
    ensures |r| == |b| && forall k :: 0 <= k < |b| ==> r[k] == Simple(b[k])
  {
    if b == [] then [] else [Simple(b[0])] + Lift(b[1..])
  }

  lemma {:induction false} RunLifted(b: seq<Stmt>, rest: seq<CStmt>, s: Store, w: World, o: Ops)
    ensures RunList(Lift(b) + rest, s, w, o) == RunList(rest, Exec(b, s, o), w, o)
  {
    if b == [] {
      assert Lift(b) + rest == rest;
    } else {
      RunLifted(b[1..], rest, ExecStmt(b[0], s, o), w, o);
      assert (Lift(b) + rest)[1..] == Lift(b[1..]) + rest;
    }
  }

  lemma {:induction false} RunOne(before: seq<Stmt>, st: CStmt, s: Store, w: World, o: Ops)
    ensures RunList(Lift(before) + [st], s, w, o) == Run(st, Exec(before, s, o), w, o)
  {
    var s1 := Exec(before, s, o);
    RunLifted(before, [st], s, w, o);
    assert [st][1..] == [];
    var (out, s2) := Run(st, s1, w, o);
    assert RunList([], s2, w, o) == (Normal, s2);
  }

  lemma {:induction false} RunListAppend(a: seq<CStmt>, b: seq<CStmt>, s: Store, w: World, o: Ops)
    ensures var (out, s1) := RunList(a, s, w, o);
            RunList(a + b, s, w, o) == if out == Normal then RunList(b, s1, w, o) else (out, s1)
  {
    if a == [] {
      assert a + b == b;
    } else {
      RunListAppend(a[1..], b, Run(a[0], s, w, o).1, w, o);
      assert (a + b)[1..] == a[1..] + b;
    }
  }

  // ----- what statements mention -----

  function StNames(st: CStmt): set<Name>
    decreases st, 1
  {
    match st
    case Simple(x) => StmtNames(x)
    case Declare(x, e) => {x} + Names(e)
    case Other(_) => {}
    case Break => {}
    case Continue => {}
    case Return(e) => Names(e)
    case If(c, thn) => Names(c) + StNames(thn)
    case IfWithElse(c, thn, els) => Names(c) + StNames(thn) + StNames(els)
    case Block(list) => ListNames(list)
    case BlockNoBrace(list) => ListNames(list)
    case For(f) => OptNames(f.pre) + OptNames(f.cond) + PostNames(f.post) + StNames(f.body)
    case Do(body, x) => StNames(body) + Names(x)
  }

  function ListNames(list: seq<CStmt>): set<Name>
    decreases list, 0
  {
    if list == [] then {} else StNames(list[0]) + ListNames(list[1..])
  }

  function OptNames(e: Option<Expr>): set<Name> {
    if e.None? then {} else Names(e.value)
  }

  function PostNames(post: Post): set<Name> {
    match post
    case NoPost => {}
    case PostExpr(e) => Names(e)
    case PostBlock(list) => BlockNames(list)
  }

  /** The same end and, unless unfinished, the same store but for temporaries numbered g and up. */
  ghost predicate Alike(a: (Outcome, Store), b: (Outcome, Store), g: nat) {
    a.0 == b.0 && (a.0 != Unfinished ==> SameBelow(a.1, b.1, g))
  }

  ghost predicate BothAlike(a: Option<(Outcome, Store)>, b: Option<(Outcome, Store)>, g: nat) {
    if a.None? then b.None? else b.Some? && Alike(a.value, b.value, g)
  }

  /** A pair of stores to start from that differ only in the temporaries numbered g and up. */
  ghost predicate Start(s: Store, t: Store, g: nat) {
    SameBelow(s, t, g)
  }

  /** The statements not taken apart do not mention temporaries. */
  ghost predicate Blind(w: World) {
    forall id: nat, s: Store, t: Store, g: nat :: Start(s, t, g) ==> Alike(w.run(id, s), w.run(id, t), g)
  }

  /** The body neither reads nor depends on temporaries numbered g and up. */
  ghost predicate Ignores(body: CStmt, g: nat, w: World, o: Ops) {
    forall s: Store, t: Store :: Start(s, t, g) ==> Alike(Run(body, s, w, o), Run(body, t, w, o), g)
  }

  // ----- a statement that mentions no temporary ignores it -----

  lemma {:induction false} RunBelow(st: CStmt, g: nat, s: Store, t: Store, w: World, o: Ops)
    requires Unused(StNames(st), g) && Blind(w) && SameBelow(s, t, g)
    ensures Alike(Run(st, s, w, o), Run(st, t, w, o), g)
    decreases st, 2, 0
  {
    match st
    case Simple(x) => StmtReadsOnly(x, s, t, o);
    case Declare(_, e) => EvalBelow(e, s, t, g, o);
    case Other(id) =>
      assert Start(s, t, g);
    case Break =>
    case Continue =>
    case Return(e) => EvalBelow(e, s, t, g, o);
    case If(c, thn) =>
      EvalBelow(c, s, t, g, o);
      RunBelow(thn, g, Eval(c, s, o).1, Eval(c, t, o).1, w, o);
    case IfWithElse(c, thn, els) =>
      EvalBelow(c, s, t, g, o);
      RunBelow(thn, g, Eval(c, s, o).1, Eval(c, t, o).1, w, o);
      RunBelow(els, g, Eval(c, s, o).1, Eval(c, t, o).1, w, o);
    case Block(list) => ListBelow(list, g, s, t, w, o);
    case BlockNoBrace(list) => ListBelow(list, g, s, t, w, o);
    case For(f) =>
      PreBelow(f.pre, g, s, t, o);
      BodyBelow(f.body, g, w, o);
      LoopBelow(f.cond, f.post, f.body, g, AfterPre(f.pre, s, o), AfterPre(f.pre, t, o), w.rounds, w, o);
    case Do(body, x) =>
      BodyBelow(body, g, w, o);
      DoBelow(body, x, g, s, t, w.rounds, w, o);
  }

  lemma {:induction false} BodyBelow(body: CStmt, g: nat, w: World, o: Ops)
    requires Unused(StNames(body), g) && Blind(w)
    ensures Ignores(body, g, w, o)
    decreases body, 3, 0
  {
    forall s: Store, t: Store | Start(s, t, g) ensures Alike(Run(body, s, w, o), Run(body, t, w, o), g) {
      RunBelow(body, g, s, t, w, o);
    }
  }

  lemma {:induction false} ListBelow(b: seq<CStmt>, g: nat, s: Store, t: Store, w: World, o: Ops)
    requires Unused(ListNames(b), g) && Blind(w) && SameBelow(s, t, g)
    ensures Alike(RunList(b, s, w, o), RunList(b, t, w, o), g)
    decreases b, 0, 0
  {
    if b != [] {
      RunBelow(b[0], g, s, t, w, o);
      if Run(b[0], s, w, o).0 == Normal {
        ListBelow(b[1..], g, Run(b[0], s, w, o).1, Run(b[0], t, w, o).1, w, o);
      }
    }
  }

  lemma {:induction false} PreBelow(pre: Option<Expr>, g: nat, s: Store, t: Store, o: Ops)
    requires Unused(OptNames(pre), g) && SameBelow(s, t, g)
    ensures SameBelow(AfterPre(pre, s, o), AfterPre(pre, t, o), g)
  {
    if pre.Some? {
      EvalBelow(pre.value, s, t, g, o);
    }
  }

  lemma {:induction false} PostBelow(post: Post, g: nat, s: Store, t: Store, o: Ops)
    requires Unused(PostNames(post), g) && SameBelow(s, t, g)
    ensures SameBelow(RunPost(post, s, o), RunPost(post, t, o), g)
  {
    match post
    case NoPost =>
    case PostExpr(e) => EvalBelow(e, s, t, g, o);
    case PostBlock(list) => BlockReadsOnly(list, s, t, o);
  }

  /** A test, in front of a body that ignores the temporaries. */
  lemma {:induction false} TestBelow(cond: Option<Expr>, g: nat, s: Store, t: Store, o: Ops)
    requires Unused(OptNames(cond), g) && SameBelow(s, t, g)
    ensures EvalAll(Clauses(cond), s, o).0 == EvalAll(Clauses(cond), t, o).0
    ensures SameBelow(EvalAll(Clauses(cond), s, o).1, EvalAll(Clauses(cond), t, o).1, g)
  {
    if cond.Some? {
      EvalOne(cond.value, s, o);
      EvalOne(cond.value, t, o);
      EvalBelow(cond.value, s, t, g, o);
    }
  }

  /** A round that ends alike, before loops that end alike. */
  lemma {:induction false} RoundThenLoop(cond: Option<Expr>, post: Post, body: CStmt, cond': Option<Expr>, post': Post,
                                         body': CStmt, s: Store, t: Store, fuel: nat, g: nat, w: World, o: Ops)
    requires fuel > 0
    requires var (out, s1) := Tested(true, Clauses(cond), body, s, w, o);
             var (out', t1) := Tested(true, Clauses(cond'), body', t, w, o);
             && Alike((out, s1), (out', t1), g)
             && (out == Normal || out == Continued ==>
                   BothAlike(RunLoop(cond, post, body, RunPost(post, s1, o), fuel - 1, w, o),
                             RunLoop(cond', post', body', RunPost(post', t1, o), fuel - 1, w, o), g))
    ensures BothAlike(RunLoop(cond, post, body, s, fuel, w, o), RunLoop(cond', post', body', t, fuel, w, o), g)
  {
  }

  lemma {:induction false} TestedBelow(cond: Option<Expr>, body: CStmt, g: nat, s: Store, t: Store, w: World, o: Ops)
    requires Unused(OptNames(cond), g) && SameBelow(s, t, g) && Ignores(body, g, w, o)
    ensures Alike(Tested(true, Clauses(cond), body, s, w, o), Tested(true, Clauses(cond), body, t, w, o), g)
  {
    TestBelow(cond, g, s, t, o);
    assert Start(EvalAll(Clauses(cond), s, o).1, EvalAll(Clauses(cond), t, o).1, g);
  }

  lemma {:induction false} LoopBelow(cond: Option<Expr>, post: Post, body: CStmt, g: nat, s: Store, t: Store,
                                     fuel: nat, w: World, o: Ops)
    requires Unused(OptNames(cond), g) && Unused(PostNames(post), g) && Ignores(body, g, w, o)
    requires SameBelow(s, t, g)
    ensures BothAlike(RunLoop(cond, post, body, s, fuel, w, o), RunLoop(cond, post, body, t, fuel, w, o), g)
    decreases fuel
  {
    if fuel > 0 {
      TestedBelow(cond, body, g, s, t, w, o);
      var (out, s1) := Tested(true, Clauses(cond), body, s, w, o);
      var t1 := Tested(true, Clauses(cond), body, t, w, o).1;
      if out == Normal || out == Continued {
        PostBelow(post, g, s1, t1, o);
        LoopBelow(cond, post, body, g, RunPost(post, s1, o), RunPost(post, t1, o), fuel - 1, w, o);
      }
      RoundThenLoop(cond, post, body, cond, post, body, s, t, fuel, g, w, o);
    }
  }

  lemma {:induction false} RoundThenDo(body: CStmt, x: Expr, s: Store, t: Store, fuel: nat, g: nat, w: World, o: Ops)
    requires fuel > 0
    requires var (out, s1) := Run(body, s, w, o);
             var (out', t1) := Run(body, t, w, o);
             && Alike((out, s1), (out', t1), g)
             && (out == Normal || out == Continued ==>
                   var (v, s2) := Eval(x, s1, o);
                   var (v', t2) := Eval(x, t1, o);
                   && v == v' && SameBelow(s2, t2, g)
                   && BothAlike(RunDo(body, x, s2, fuel - 1, w, o), RunDo(body, x, t2, fuel - 1, w, o), g))
    ensures BothAlike(RunDo(body, x, s, fuel, w, o), RunDo(body, x, t, fuel, w, o), g)
  {
    DoUnfolds(body, x, s, fuel, w, o);
    DoUnfolds(body, x, t, fuel, w, o);
  }

  lemma {:induction false} DoUnfolds(body: CStmt, x: Expr, s: Store, fuel: nat, w: World, o: Ops)
    requires fuel > 0
    ensures var (out, s1) := Run(body, s, w, o);
            var (v, s2) := Eval(x, s1, o);
            RunDo(body, x, s, fuel, w, o) ==
            if out == Broke then Some((Normal, s1))
            else if out != Normal && out != Continued then Some((out, s1))
            else if v == 0 then Some((Normal, s2))
            else RunDo(body, x, s2, fuel - 1, w, o)
  {
  }

  lemma {:induction false} DoBelow(body: CStmt, x: Expr, g: nat, s: Store, t: Store, fuel: nat, w: World, o: Ops)
    requires Ignores(body, g, w, o) && Unused(Names(x), g) && SameBelow(s, t, g)
    ensures BothAlike(RunDo(body, x, s, fuel, w, o), RunDo(body, x, t, fuel, w, o), g)
    decreases fuel
  {
    if fuel == 0 {
      assert RunDo(body, x, s, fuel, w, o).None? && RunDo(body, x, t, fuel, w, o).None?;
    } else {
      assert Alike(Run(body, s, w, o), Run(body, t, w, o), g) by {
        assert Start(s, t, g);
      }
      var (out, s1) := Run(body, s, w, o);
      var t1 := Run(body, t, w, o).1;
      if out == Normal || out == Continued {
        EvalBelow(x, s1, t1, g, o);
        DoBelow(body, x, g, Eval(x, s1, o).1, Eval(x, t1, o).1, fuel - 1, w, o);
      }
      RoundThenDo(body, x, s, t, fuel, g, w, o);
    }
  }

  /** A statement that mentions no temporary numbered g or up ignores them. */
  lemma {:induction false} Ignored(st: CStmt, g: nat, w: World, o: Ops)
    requires Unused(StNames(st), g) && Blind(w)
    ensures Ignores(st, g, w, o)
  {
    BodyBelow(st, g, w, o);
  }
}
