/** Statements inside function literals and in the post blocks of loops: the traversal comes
    to them too, and finds nothing to do. */
module Nested {
  import opened Common
  import opened CTree
  import opened Loops
  import opened Scopes
  import opened SideEffects
  import opened Statements
  import opened Traversal

  /** The statements in the function literals of e have nothing left to rewrite. */
  ghost predicate Calm(e: Expr)
    decreases e, 1
  {
    match e
    case Number(_) => true
    case Var(_) => true
    case Unary(_, a) => Calm(a)
    case Paren(a) => Calm(a)
    case Binary(_, l, r) => Calm(l) && Calm(r)
    case AndAnd(l, r) => Calm(l) && Calm(r)
    case OrOr(l, r) => Calm(l) && Calm(r)
    case Cond(c, y, z) => Calm(c) && Calm(y) && Calm(z)
    case Assign(_, _, r) => Calm(r)
    case IncDec(_, _, _) => true
    case SideEffectFunc(_, block, value, after) => CalmBlock(block) && Calm(value) && CalmBlock(after)
  }

  /** Nor has the statement itself. */
  ghost predicate CalmStmt(st: Stmt)
    decreases st, 1
  {
    match st
    case ExprStmt(e) => Settled1(e) && Calm(e)
    case DeclStmt(_) => true
    case IfElse(c, thn, els) => Residual(c) && Calm(c) && CalmStmt(thn) && CalmStmt(els)
  }

  ghost predicate CalmBlock(b: seq<Stmt>)
    decreases b, 0
  {
    b == [] || (CalmStmt(b[0]) && CalmBlock(b[1..]))
  }

  /** In C there are no function literals. */
  lemma {:induction false} CIsCalm(e: Expr)
    requires FromC(e)
    ensures Calm(e)
  {
    match e
    case Number(_) =>
    case Var(_) =>
    case Unary(_, a) => CIsCalm(a);
    case Paren(a) => CIsCalm(a);
    case Binary(_, l, r) => CIsCalm(l); CIsCalm(r);
    case AndAnd(l, r) => CIsCalm(l); CIsCalm(r);
    case OrOr(l, r) => CIsCalm(l); CIsCalm(r);
    case Cond(c, y, z) => CIsCalm(c); CIsCalm(y); CIsCalm(z);
    case Assign(_, _, r) => CIsCalm(r);
    case IncDec(_, _, _) =>
  }

  /** The same statement as one of a tree. */
  function AsTree(st: Stmt): CStmt {
    if st.IfElse? then IfWithElse(st.c, AsTree(st.thn), AsTree(st.els)) else Simple(st)
  }

  /** The traversal changes nothing in a calm statement, and takes no temporary for it. */
  lemma {:induction false} VisitLeaves(st: Stmt, g: nat)
    requires CalmStmt(st)
    ensures Visit(Simple(st), g) == (AsTree(st), g)
  {
    match st
    case ExprStmt(e) => SettledStays(e, false, g);
    case DeclStmt(_) =>
    case IfElse(c, thn, els) =>
      ResidualStays(c, true, g);
      VisitLeaves(thn, g);
      VisitLeaves(els, g);
      assert Visit1(Simple(st), g) == (IfWithElse(c, Simple(thn), Simple(els)), g);
  }

  // ----- what hoisting yields is calm -----

  ghost predicate CalmPieces(h: Hoisted) {
    Calm(h.e) && CalmBlock(h.before) && CalmBlock(h.after)
  }

  lemma {:induction false} CalmAppend(a: seq<Stmt>, b: seq<Stmt>)
    ensures CalmBlock(a + b) <==> CalmBlock(a) && CalmBlock(b)
  {
    if a == [] {
      assert a + b == b;
    } else {
      CalmAppend(a[1..], b);
      assert (a + b)[1..] == a[1..] + b;
    }
  }

  lemma {:induction false} CalmOne(st: Stmt)
    ensures CalmBlock([st]) <==> CalmStmt(st)
  {
    assert [st][1..] == [];
  }

  lemma {:induction false} HoistCalm(x: Expr, stmt: bool, noAfter: bool, g: nat)
    requires Calm(x)
    ensures CalmPieces(Hoist(x, stmt, noAfter, g))
  {
    match x
    case Number(_) =>
    case Var(_) =>
    case Unary(_, a) => HoistCalm(a, false, noAfter, g);
    case Paren(a) => HoistCalm(a, false, noAfter, g);
    case Binary(_, l, r) =>
      var hl := Hoist(l, false, noAfter, g);
      var hr := Hoist(r, false, noAfter, hl.gen);
      HoistCalm(l, false, noAfter, g);
      HoistCalm(r, false, noAfter, hl.gen);
      CalmAppend(hl.before, hr.before);
      CalmAppend(hl.after, hr.after);
    case AndAnd(l, r) =>
      HoistCalm(l, false, true, g);
      HoistCalm(r, false, false, Hoist(l, false, true, g).gen);
    case OrOr(l, r) =>
      HoistCalm(l, false, true, g);
      HoistCalm(r, false, false, Hoist(l, false, true, g).gen);
    case Cond(c, y, z) =>
      var hc := Hoist(c, false, true, g);
      var hy := Hoist(y, false, false, hc.gen);
      var hz := Hoist(z, false, false, hy.gen);
      HoistCalm(c, false, true, g);
      HoistCalm(y, false, false, hc.gen);
      HoistCalm(z, false, false, hy.gen);
      HoistLeavesResidual(c, true, g);
      HoistLeavesResidual(y, false, hc.gen);
      HoistLeavesResidual(z, false, hy.gen);
      CondCalm(hc, hy, hz);
    case Assign(op, v, r) =>
      var h := Hoist(r, false, noAfter, g);
      HoistCalm(r, false, noAfter, g);
      HoistLeavesResidual(r, noAfter, g);
      CalmOne(ExprStmt(Assign(op, v, h.e)));
      CalmAppend(h.before, [ExprStmt(Assign(op, v, h.e))]);
    case IncDec(_, inc, v) => StepCalm(inc, v, Tmp(g));
    case SideEffectFunc(_, _, value, _) => HoistCalm(value, false, noAfter, g);
  }

  lemma {:induction false} StepCalm(inc: bool, v: Name, t: Name)
    ensures var save, step := ExprStmt(Assign(ColonEq, t, Var(v))), ExprStmt(IncDec(false, inc, v));
            CalmBlock([step]) && CalmBlock([save, step])
  {
    var save, step := ExprStmt(Assign(ColonEq, t, Var(v))), ExprStmt(IncDec(false, inc, v));
    assert Residual(Var(v)) && Calm(Var(v)) && Calm(Assign(ColonEq, t, Var(v))) && Calm(step.e);
    CalmOne(step);
    CalmOne(save);
    CalmAppend([save], [step]);
    assert [save] + [step] == [save, step];
  }

  lemma {:induction false} CondCalm(hc: Hoisted, hy: Hoisted, hz: Hoisted)
    requires CalmPieces(hc) && CalmPieces(hy) && CalmPieces(hz)
    requires Residual(hc.e) && Residual(hy.e) && Residual(hz.e)
    ensures CalmPieces(HoistedCond(hc, hy, hz))
  {
    var t := Tmp(hz.gen);
    var st := Choice(t, hc.e, Wrapped("unknown", hy), Wrapped("unknown", hz));
    ArmCalm(t, "unknown", hy);
    ArmCalm(t, "unknown", hz);
    CalmOne(st);
    CalmOne(DeclStmt(t));
    CalmAppend([DeclStmt(t)], [st]);
    assert [DeclStmt(t)] + [st] == [DeclStmt(t), st];
    CalmAppend(hc.before, [DeclStmt(t), st]);
  }

  lemma {:induction false} ArmCalm(t: Name, text: string, h: Hoisted)
    requires CalmPieces(h) && Residual(h.e)
    ensures CalmStmt(ExprStmt(Assign(Set, t, Wrapped(text, h))))
  {
    var w := Wrapped(text, h);
    assert Residual(w) && Calm(w);
    assert Calm(Assign(Set, t, w));
  }

  // ----- statement trees -----

  /** All function literals in the statement are calm, whatever is left to do outside them. */
  ghost predicate CalmInside(st: Stmt) {
    match st
    case ExprStmt(e) => Calm(e)
    case DeclStmt(_) => true
    case IfElse(c, thn, els) => Calm(c) && CalmInside(thn) && CalmInside(els)
  }

  ghost predicate CalmPost(post: Post) {
    match post
    case NoPost => true
    case PostExpr(e) => Calm(e)
    case PostBlock(list) => CalmBlock(list)
  }

  ghost predicate CalmOption(e: Option<Expr>) {
    e.Some? ==> Calm(e.value)
  }

  /** All function literals and post blocks of a tree are. */
  ghost predicate CalmTree(st: CStmt)
    decreases st
  {
    match st
    case Simple(x) => CalmInside(x)
    case Declare(_, e) => Calm(e)
    case Return(e) => Calm(e)
    case If(c, thn) => Calm(c) && CalmTree(thn)
    case IfWithElse(c, thn, els) => Calm(c) && CalmTree(thn) && CalmTree(els)
    case Block(list) => forall k :: 0 <= k < |list| ==> CalmTree(list[k])
    case BlockNoBrace(list) => forall k :: 0 <= k < |list| ==> CalmTree(list[k])
    case For(f) => CalmOption(f.pre) && CalmOption(f.cond) && CalmPost(f.post) && CalmTree(f.body)
    case Do(body, x) => CalmTree(body) && Calm(x)
    case _ => true
  }

  ghost predicate CalmList(list: seq<CStmt>) {
    forall k :: 0 <= k < |list| ==> CalmTree(list[k])
  }

  ghost predicate AllCalm(cs: seq<Expr>) {
    forall k :: 0 <= k < |cs| ==> Calm(cs[k])
  }

  lemma {:induction false} CalmIsInside(st: Stmt)
    requires CalmStmt(st)
    ensures CalmInside(st)
  {
    if st.IfElse? {
      CalmIsInside(st.thn);
      CalmIsInside(st.els);
    }
  }

  lemma {:induction false} LiftCalm(b: seq<Stmt>)
    requires CalmBlock(b)
    ensures CalmList(Lift(b))
  {
    if b != [] {
      CalmIsInside(b[0]);
      LiftCalm(b[1..]);
      assert Lift(b) == [Simple(b[0])] + Lift(b[1..]);
    }
  }

  lemma {:induction false} InFrontCalm(before: seq<Stmt>, st: CStmt)
    requires CalmBlock(before) && CalmTree(st)
    ensures CalmTree(InFrontOf(before, st))
  {
    LiftCalm(before);
    assert CalmList(Lift(before) + [st]);
  }

  lemma {:induction false} SplitCalm(e: Expr)
    requires Calm(e)
    ensures AllCalm(Split(e))
  {
    if e.AndAnd? {
      SplitCalm(e.l);
    }
  }

  lemma {:induction false} JoinCalm(cs: seq<Expr>)
    requires |cs| > 0 && AllCalm(cs)
    ensures Calm(Join(cs))
  {
    if |cs| > 1 {
      JoinCalm(cs[..|cs| - 1]);
    }
  }

  lemma {:induction false} FixCalm(loop: bool, front: seq<Expr>, tail: seq<Expr>, body: CStmt, g: nat)
    requires |front| > 0 && AllCalm(front) && AllCalm(tail) && CalmTree(body)
    ensures var f := FixAndAnd(loop, front, tail, body, g); AllCalm(f.clauses) && CalmTree(f.body)
    decreases |front|
  {
    var n := |front| - 1;
    if n > 0 {
      var h := Hoist(front[n], false, true, g);
      var rest := [h.e] + tail;
      HoistCalm(front[n], false, true, g);
      assert AllCalm(rest);
      if h.before == [] {
        FixCalm(loop, front[..n], rest, body, h.gen);
      } else {
        JoinCalm(rest);
        TestCalm(loop, h.before, Join(rest), body);
        FixCalm(loop, front[..n], [], InFront(loop, h.before, Join(rest), body), h.gen);
      }
    }
  }

  lemma {:induction false} TestCalm(loop: bool, before: seq<Stmt>, test: Expr, body: CStmt)
    requires CalmBlock(before) && Calm(test) && CalmTree(body)
    ensures CalmTree(InFront(loop, before, test, body))
  {
    LiftCalm(before);
    GuardCalm(test);
    assert CalmTree(If(test, body));
    assert CalmList(Lift(before) + [If(test, body)]);
    var guarded := Lift(before) + [If(Unary(Not, test), Break)];
    assert CalmList(guarded);
    assert CalmTree(BlockNoBrace(guarded));
    if body.Block? {
      assert CalmList([BlockNoBrace(guarded)] + body.list);
    }
  }

  lemma {:induction false} GuardCalm(test: Expr)
    requires Calm(test)
    ensures CalmTree(If(Unary(Not, test), Break))
  {
    assert Calm(Unary(Not, test));
  }

  lemma {:induction false} ForceCalm(body: CStmt)
    requires CalmTree(body)
    ensures CalmList(ForceBlock(body).list)
  {
  }

  // ----- a visit keeps trees calm -----

  lemma {:induction false} ExprStmtCalm(e: Expr, g: nat)
    requires Calm(e)
    ensures CalmTree(RewriteExprStmt(e, g).0)
  {
    var h := Hoist(e, true, false, g);
    HoistCalm(e, true, false, g);
    HoistSettles(e, false, g);
    PiecesCalm(h);
    LiftCalm(h.before + [ExprStmt(h.e)] + h.after);
  }

  lemma {:induction false} PiecesCalm(h: Hoisted)
    requires CalmPieces(h) && Settled1(h.e)
    ensures CalmBlock(h.before + [ExprStmt(h.e)] + h.after)
  {
    CalmOne(ExprStmt(h.e));
    CalmAppend(h.before, [ExprStmt(h.e)]);
    CalmAppend(h.before + [ExprStmt(h.e)], h.after);
  }

  lemma {:induction false} DeclCalm(v: Name, e: Expr, g: nat)
    requires Calm(e)
    ensures CalmTree(RewriteDecl(v, e, g).0)
  {
    var h := Hoist(e, true, false, g);
    HoistCalm(e, true, false, g);
    LiftCalm(h.before);
    LiftCalm(h.after);
    assert CalmTree(Declare(v, h.e));
    assert CalmList(Lift(h.before) + ([Declare(v, h.e)] + Lift(h.after)));
  }

  lemma {:induction false} IfCalm(c: Expr, thn: CStmt, g: nat)
    requires Calm(c) && CalmTree(thn)
    ensures CalmTree(RewriteIf(c, thn, g).0)
  {
    var f := FixAndAnd(false, Split(c), [], thn, g);
    SplitCalm(c);
    FixCalm(false, Split(c), [], thn, g);
    if f.clauses != [] {
      var h := Hoist(Join(f.clauses), false, true, f.gen);
      JoinCalm(f.clauses);
      HoistCalm(Join(f.clauses), false, true, f.gen);
      InFrontCalm(h.before, If(h.e, f.body));
    }
  }

  lemma {:induction false} IfElseCalm(c: Expr, thn: CStmt, els: CStmt, g: nat)
    requires Calm(c) && CalmTree(thn) && CalmTree(els)
    ensures CalmTree(RewriteIfElse(c, thn, els, g).0)
  {
    var h := Hoist(c, false, true, g);
    HoistCalm(c, false, true, g);
    InFrontCalm(h.before, IfWithElse(h.e, thn, els));
  }

  lemma {:induction false} ReturnCalm(e: Expr, g: nat)
    requires Calm(e)
    ensures CalmTree(RewriteReturn(e, g).0)
  {
    var h := Hoist(e, false, true, g);
    HoistCalm(e, false, true, g);
    InFrontCalm(h.before, Return(h.e));
  }

  lemma {:induction false} MovedCalm(h: Hoisted, body: CStmt)
    requires CalmPieces(h) && CalmTree(body)
    ensures var (cond, b) := MoveTest(h, body); CalmOption(cond) && CalmTree(b)
  {
    LiftCalm(h.before);
    GuardCalm(h.e);
    ForceCalm(body);
    assert CalmList(Lift(h.before) + [If(Unary(Not, h.e), Break)] + ForceBlock(body).list);
  }

  lemma {:induction false} TestsCalm(f: ForStmt, g: nat)
    requires CalmTree(For(f))
    ensures var n := RewriteTest(f, g); CalmBlock(n.before) && CalmTree(For(n.f)) && n.f.post == f.post
  {
    var fixed := if f.cond.None? then Fixed([], f.body, g) else FixAndAnd(true, Split(f.cond.value), [], f.body, g);
    if f.cond.Some? {
      SplitCalm(f.cond.value);
      FixCalm(true, Split(f.cond.value), [], f.body, g);
    }
    if f.pre.Some? {
      HoistCalm(f.pre.value, true, true, fixed.gen);
    }
    var hp := if f.pre.None? then Hoisted(Number(0), [], [], fixed.gen) else Hoist(f.pre.value, true, true, fixed.gen);
    if fixed.clauses != [] {
      JoinCalm(fixed.clauses);
      HoistCalm(Join(fixed.clauses), false, true, hp.gen);
      MovedCalm(Hoist(Join(fixed.clauses), false, true, hp.gen), fixed.body);
    }
  }

  lemma {:induction false} PostCalm(post: Post, g: nat)
    requires CalmPost(post)
    ensures CalmPost(RewritePost(post, g).0)
  {
    if post.PostExpr? {
      HoistCalm(post.e, true, false, g);
      HoistSettles(post.e, false, g);
      PiecesCalm(Hoist(post.e, true, false, g));
    }
  }

  lemma {:induction false} ForCalm(f: ForStmt, g: nat)
    requires CalmTree(For(f))
    ensures CalmTree(Visit1(For(f), g).0)
  {
    var t := RewriteTest(f, g);
    TestsCalm(f, g);
    PostCalm(t.f.post, t.gen);
    var n := RewriteFor(f, g);
    assert CalmTree(For(n.f));
    InFrontCalm(n.before, For(n.f));
  }

  lemma {:induction false} DoCalm(body: CStmt, x: Expr)
    requires CalmTree(body) && Calm(x)
    ensures CalmTree(For(RewriteDo(body, x)))
  {
    GuardCalm(x);
    ForceCalm(body);
    assert CalmList(ForceBlock(body).list + [If(Unary(Not, x), Break)]);
    assert CalmTree(Block(ForceBlock(body).list + [If(Unary(Not, x), Break)]));
  }

  lemma {:induction false} Visit1Calm(st: CStmt, g: nat)
    requires CalmTree(st)
    ensures CalmTree(Visit1(st, g).0)
  {
    match st
    case Simple(x) =>
      match x {
        case ExprStmt(e) => ExprStmtCalm(e, g);
        case DeclStmt(_) =>
        case IfElse(c, thn, els) => IfElseCalm(c, Simple(thn), Simple(els), g);
      }
    case Declare(v, e) => DeclCalm(v, e, g);
    case Return(e) => ReturnCalm(e, g);
    case If(c, thn) => IfCalm(c, thn, g);
    case IfWithElse(c, thn, els) => IfElseCalm(c, thn, els, g);
    case For(f) => ForCalm(f, g);
    case Do(body, x) => DoCalm(body, x);
    case _ =>
  }

  /** Main result: of a tree without function literals, or with calm ones, the traversal makes
      one in which nothing is left to rewrite, in function literals and post blocks neither. */
  lemma {:induction false} VisitCalm(st: CStmt, g: nat)
    requires CalmTree(st)
    ensures Settled(Visit(st, g).0) && CalmTree(Visit(st, g).0)
    decreases Level(st), 0, 0
  {
    LevelDrops(st, g);
    VisitSettles(st, g);
    Visit1Calm(st, g);
    PartsCalm(Visit1(st, g).0, Visit1(st, g).1);
  }

  lemma {:induction false} PartsCalm(st: CStmt, g: nat)
    requires CalmTree(st)
    ensures CalmTree(VisitParts(st, g).0)
    decreases PartLevel(st), 2, 0
  {
    match st
    case If(_, thn) => VisitCalm(thn, g);
    case IfWithElse(_, thn, els) =>
      VisitCalm(thn, g);
      VisitCalm(els, Visit(thn, g).1);
    case Block(list) => ListCalm(list, g);
    case BlockNoBrace(list) => ListCalm(list, g);
    case For(f) => VisitCalm(f.body, g);
    case _ =>
  }

  lemma {:induction false} ListCalm(list: seq<CStmt>, g: nat)
    requires CalmList(list)
    ensures CalmList(VisitList(list, g).0)
    decreases ListLevel(list), 1, |list|
  {
    if list != [] {
      var (x, h) := Visit(list[0], g);
      VisitCalm(list[0], g);
      ListCalm(list[1..], h);
      assert VisitList(list, g).0 == [x] + VisitList(list[1..], h).0;
    }
  }
}
