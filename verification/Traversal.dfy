/** Rewriting a whole statement tree: every statement is rewritten before its parts are. */
module Traversal {
  import opened Common
  import opened CTree
  import opened Loops
  import opened SideEffects
  import opened Statements

  /** What a visit makes of one statement. */
  function Visit1(st: CStmt, g: nat): (CStmt, nat) {
    match st
    case Simple(x) => VisitSimple(x, g)
    case Declare(v, e) => RewriteDecl(v, e, g)
    case Return(e) => RewriteReturn(e, g)
    case If(c, thn) => RewriteIf(c, thn, g)
    case IfWithElse(c, thn, els) => RewriteIfElse(c, thn, els, g)
    case For(f) =>
      var n := RewriteFor(f, g);
      (InFrontOf(n.before, For(n.f)), n.gen)
    case Do(body, x) => (For(RewriteDo(body, x)), g)
    case _ => (st, g)
  }

  function VisitSimple(x: Stmt, g: nat): (CStmt, nat) {
    match x
    case ExprStmt(e) => RewriteExprStmt(e, g)
    case DeclStmt(_) => (Simple(x), g)
    case IfElse(c, thn, els) => RewriteIfElse(c, Simple(thn), Simple(els), g)
  }

  // ----- what the rewriting relies on -----

  ghost predicate StmtReady(st: Stmt) {
    match st
    case ExprStmt(e) => WellSequenced(e)
    case DeclStmt(_) => true
    case IfElse(c, thn, els) => WellSequenced(c) && StmtReady(thn) && StmtReady(els)
  }

  ghost predicate BlockReady(b: seq<Stmt>) {
    forall k :: 0 <= k < |b| ==> StmtReady(b[k])
  }

  ghost predicate PostReady(post: Post) {
    match post
    case NoPost => true
    case PostExpr(e) => WellSequenced(e)
    case PostBlock(list) => BlockReady(list)
  }

  /** Expressions obey C's sequencing rules; a loop over a statement that is no block loses
      nothing; where the body of a do loop continues the test could be skipped; and no
      initialiser is an assignment or increment, or mentions the variable declared, which
      would be another one in Go. */
  ghost predicate Ready(st: CStmt, w: World, o: Ops) {
    match st
    case Simple(x) => StmtReady(x)
    case Declare(v, e) => WellSequenced(e) && v !in Names(e) && !e.Assign? && !e.IncDec?
    case Return(e) => WellSequenced(e)
    case If(c, thn) => WellSequenced(c) && Ready(thn, w, o)
    case IfWithElse(c, thn, els) => WellSequenced(c) && Ready(thn, w, o) && Ready(els, w, o)
    case Block(list) => forall k :: 0 <= k < |list| ==> Ready(list[k], w, o)
    case BlockNoBrace(list) => forall k :: 0 <= k < |list| ==> Ready(list[k], w, o)
    case For(f) =>
      && (f.pre.Some? ==> WellSequenced(f.pre.value))
      && (f.cond.Some? ==> WellSequenced(f.cond.value) && LosesNothing(f.cond.value, f.body, o))
      && PostReady(f.post) && Ready(f.body, w, o)
    case Do(body, x) => WellSequenced(x) && TestAgain(body, x, w, o) && Ready(body, w, o)
    case _ => true
  }

  /** Ready, and without temporaries numbered g or up. */
  ghost predicate Fine(st: CStmt, g: nat, w: World, o: Ops) {
    Ready(st, w, o) && Unused(StNames(st), g)
  }

  ghost predicate FineList(list: seq<CStmt>, g: nat, w: World, o: Ops) {
    forall k :: 0 <= k < |list| ==> Fine(list[k], g, w, o)
  }

  ghost predicate FineExpr(e: Expr, g: nat) {
    WellSequenced(e) && Unused(Names(e), g)
  }

  ghost predicate FineExprs(cs: seq<Expr>, g: nat) {
    forall k :: 0 <= k < |cs| ==> FineExpr(cs[k], g)
  }

  ghost predicate FineBlock(b: seq<Stmt>, g: nat) {
    BlockReady(b) && Unused(BlockNames(b), g)
  }

  // ----- one visit keeps the run -----

  /** The two statements run alike from stores that differ only in temporaries from g up. */
  ghost predicate Equiv(a: CStmt, b: CStmt, g: nat, w: World, o: Ops) {
    forall s: Store, t: Store :: Start(s, t, g) ==> Alike(Run(a, s, w, o), Run(b, t, w, o), g)
  }

  lemma {:induction false} Visit1Means(st: CStmt, g: nat, w: World, o: Ops)
    requires Fine(st, g, w, o) && Blind(w) && LogicalNot(o)
    ensures Equiv(st, Visit1(st, g).0, g, w, o)
  {
    forall s: Store, t: Store | Start(s, t, g)
      ensures Alike(Run(st, s, w, o), Run(Visit1(st, g).0, t, w, o), g)
    {
      Visit1At(st, g, s, t, w, o);
    }
  }

  lemma {:induction false} Visit1At(st: CStmt, g: nat, s: Store, t: Store, w: World, o: Ops)
    requires Fine(st, g, w, o) && Blind(w) && LogicalNot(o) && SameBelow(s, t, g)
    ensures Alike(Run(st, s, w, o), Run(Visit1(st, g).0, t, w, o), g)
  {
    match st
    case Simple(x) => SimpleAt(x, g, s, t, w, o);
    case Declare(v, e) => DeclMeans(v, e, g, s, t, w, o);
    case Return(e) => ReturnMeans(e, g, s, t, w, o);
    case If(c, thn) =>
      Ignored(thn, g, w, o);
      IfMeans(c, thn, g, s, t, w, o);
    case IfWithElse(c, thn, els) =>
      Ignored(thn, g, w, o);
      Ignored(els, g, w, o);
      IfElseMeans(c, thn, els, g, s, t, w, o);
    case For(f) => ForAt(f, g, s, t, w, o);
    case Do(body, x) => DoAt(body, x, g, s, t, w, o);
    case _ => RunBelow(st, g, s, t, w, o);
  }

  lemma {:induction false} SimpleAt(x: Stmt, g: nat, s: Store, t: Store, w: World, o: Ops)
    requires StmtReady(x) && Unused(StmtNames(x), g) && Blind(w) && SameBelow(s, t, g)
    ensures Alike(Run(Simple(x), s, w, o), Run(VisitSimple(x, g).0, t, w, o), g)
  {
    match x
    case ExprStmt(e) => ExprStmtMeans(e, g, s, t, w, o);
    case DeclStmt(_) =>
    case IfElse(c, thn, els) =>
      Ignored(Simple(thn), g, w, o);
      Ignored(Simple(els), g, w, o);
      IfElseMeans(c, Simple(thn), Simple(els), g, s, t, w, o);
      assert Run(Simple(x), s, w, o) == Run(IfWithElse(c, Simple(thn), Simple(els)), s, w, o);
  }

  lemma {:induction false} ForAt(f: ForStmt, g: nat, s: Store, t: Store, w: World, o: Ops)
    requires Fine(For(f), g, w, o) && Blind(w) && LogicalNot(o) && SameBelow(s, t, g)
    ensures Alike(Run(For(f), s, w, o), Run(Visit1(For(f), g).0, t, w, o), g)
  {
    var n := RewriteFor(f, g);
    Ignored(f.body, g, w, o);
    ForMeans(f, g, s, t, w.rounds, w, o);
    RunInFrontOf(n.before, For(n.f), t, w, o);
  }

  lemma {:induction false} DoAt(body: CStmt, x: Expr, g: nat, s: Store, t: Store, w: World, o: Ops)
    requires Fine(Do(body, x), g, w, o) && Blind(w) && LogicalNot(o) && SameBelow(s, t, g)
    ensures Alike(Run(Do(body, x), s, w, o), Run(Visit1(Do(body, x), g).0, t, w, o), g)
  {
    RunBelow(Do(body, x), g, s, t, w, o);
    DoRuns(body, x, t, w.rounds, w, o);
  }

  // ----- what hoisting yields can be visited in turn -----

  lemma {:induction false} ReadyAppend(a: seq<Stmt>, b: seq<Stmt>)
    requires BlockReady(a) && BlockReady(b)
    ensures BlockReady(a + b)
  {
  }

  lemma {:induction false} WrappedReady(text: string, h: Hoisted)
    requires WellSequenced(h.e) && Residual(h.e)
    ensures WellSequenced(Wrapped(text, h)) && Residual(Wrapped(text, h))
  {
  }

  ghost predicate HoistedReady(h: Hoisted) {
    WellSequenced(h.e) && BlockReady(h.before) && BlockReady(h.after)
  }

  lemma {:induction false} HoistReady(x: Expr, stmt: bool, noAfter: bool, g: nat)
    requires FineExpr(x, g)
    ensures HoistedReady(Hoist(x, stmt, noAfter, g))
    decreases x, 0
  {
    match x
    case Number(_) =>
    case Var(_) =>
    case Unary(_, a) => HoistReady(a, false, noAfter, g);
    case Paren(a) => HoistReady(a, false, noAfter, g);
    case Binary(op, l, r) =>
      HoistReady(l, false, noAfter, g);
      GenGrows(l, false, noAfter, g);
      HoistReady(r, false, noAfter, Hoist(l, false, noAfter, g).gen);
      PiecesApart(l, r, noAfter, g);
    case AndAnd(l, r) =>
      HoistReady(l, false, true, g);
      GenGrows(l, false, true, g);
      ArmReady("bool", r, Hoist(l, false, true, g).gen);
    case OrOr(l, r) =>
      HoistReady(l, false, true, g);
      GenGrows(l, false, true, g);
      ArmReady("bool", r, Hoist(l, false, true, g).gen);
    case Cond(c, y, z) =>
      var hc := Hoist(c, false, true, g);
      var hy := Hoist(y, false, false, hc.gen);
      HoistReady(c, false, true, g);
      GenGrows(c, false, true, g);
      GenGrows(y, false, false, hc.gen);
      GenGrows(z, false, false, hy.gen);
      ArmReady("unknown", y, hc.gen);
      ArmReady("unknown", z, hy.gen);
      CondReady(c, y, z, stmt, noAfter, g);
    case Assign(op, v, r) =>
      HoistReady(r, false, noAfter, g);
      HoistFootprint(r, false, noAfter, g);
      HoistLeavesResidual(r, noAfter, g);
      AssignReady(op, v, r, Hoist(r, false, noAfter, g), g);
    case IncDec(_, inc, v) => StepReady(inc, v, Tmp(g));
    case SideEffectFunc(_, _, value, _) => ResidualStays(value, noAfter, g);
  }

  lemma {:induction false} StepReady(inc: bool, v: Name, t: Name)
    ensures StmtReady(ExprStmt(IncDec(false, inc, v))) && StmtReady(ExprStmt(Assign(ColonEq, t, Var(v))))
  {
    assert Last(Var(v)) == {};
    assert WellSequenced(Assign(ColonEq, t, Var(v)));
  }

  /** A conditionally evaluated operand, with its side effects in a function literal. */
  ghost predicate ArmIsReady(text: string, r: Expr, g: nat) {
    var h := Hoist(r, false, false, g);
    && WellSequenced(Wrapped(text, h))
    && Writes(Wrapped(text, h)) <= Writes(r) + Temps(g, h.gen)
  }

  lemma {:induction false} ArmReady(text: string, r: Expr, g: nat)
    requires FineExpr(r, g)
    ensures ArmIsReady(text, r, g)
    decreases r, 1
  {
    var h := Hoist(r, false, false, g);
    HoistReady(r, false, false, g);
    HoistLeavesResidual(r, false, g);
    WrappedReady(text, h);
    HoistFootprint(r, false, false, g);
    WritesAreNames(r);
    WrappedFootprint(text, h, Names(r), Writes(r), Temps(g, h.gen));
  }

  lemma {:induction false} CondReady(c: Expr, y: Expr, z: Expr, stmt: bool, noAfter: bool, g: nat)
    requires FineExpr(y, g) && FineExpr(z, g) && HoistedReady(Hoist(c, false, true, g))
    requires var hc := Hoist(c, false, true, g);
             var hy := Hoist(y, false, false, hc.gen);
             && g <= hc.gen <= hy.gen <= Hoist(z, false, false, hy.gen).gen
             && ArmIsReady("unknown", y, hc.gen) && ArmIsReady("unknown", z, hy.gen)
    ensures HoistedReady(Hoist(Cond(c, y, z), stmt, noAfter, g))
  {
    var hc := Hoist(c, false, true, g);
    var hy := Hoist(y, false, false, hc.gen);
    var hz := Hoist(z, false, false, hy.gen);
    var t := Tmp(hz.gen);
    var y', z' := Wrapped("unknown", hy), Wrapped("unknown", hz);
    WritesAreNames(y);
    WritesAreNames(z);
    assert t !in Writes(y') && t !in Writes(z');
    ChoiceReady(t, hc.e, y', z');
    ReadyAppend(hc.before, [DeclStmt(t), Choice(t, hc.e, y', z')]);
  }

  lemma {:induction false} ChoiceReady(t: Name, c: Expr, y: Expr, z: Expr)
    requires WellSequenced(c) && WellSequenced(y) && WellSequenced(z) && t !in Writes(y) && t !in Writes(z)
    ensures BlockReady([DeclStmt(t), Choice(t, c, y, z)])
  {
    LastIsWritten(y);
    LastIsWritten(z);
    assert StmtReady(ExprStmt(Assign(Set, t, y))) && StmtReady(ExprStmt(Assign(Set, t, z)));
  }

  lemma {:induction false} AssignReady(op: AssignOp, v: Name, r: Expr, h: Hoisted, g: nat)
    requires HoistedReady(h) && Residual(h.e) && (op.OpSet? ==> v !in Writes(r)) && Unused({v}, g)
    requires Writes(h.e) <= Writes(r) + Temps(g, h.gen)
    ensures WellSequenced(Assign(op, v, h.e))
    ensures BlockReady(h.before + [ExprStmt(Assign(op, v, h.e))])
  {
    var st := ExprStmt(Assign(op, v, h.e));
    assert v !in Temps(g, h.gen);
    ResidualLast(h.e);
    assert StmtReady(st);
    ReadyAppend(h.before, [st]);
  }

  /** What hoisting an expression yields is fine for the numbers from there on. */
  lemma {:induction false} HoistFine(x: Expr, stmt: bool, noAfter: bool, g: nat)
    requires FineExpr(x, g)
    ensures var h := Hoist(x, stmt, noAfter, g);
            && g <= h.gen && FineExpr(h.e, h.gen) && FineBlock(h.before, h.gen) && FineBlock(h.after, h.gen)
  {
    HoistReady(x, stmt, noAfter, g);
    HoistFootprint(x, stmt, noAfter, g);
    WritesAreNames(x);
  }

  // ----- one visit yields what can be visited in turn -----

  lemma {:induction false} FineLater(st: CStmt, g: nat, h: nat, w: World, o: Ops)
    requires Fine(st, g, w, o) && g <= h
    ensures Fine(st, h, w, o)
  {
  }

  lemma {:induction false} ListNamesUnused(list: seq<CStmt>, g: nat)
    ensures Unused(ListNames(list), g) <==> forall k :: 0 <= k < |list| ==> Unused(StNames(list[k]), g)
  {
    if list != [] {
      ListNamesUnused(list[1..], g);
      assert forall k :: 1 <= k < |list| ==> list[k] == list[1..][k - 1];
      assert forall k :: 0 <= k < |list| - 1 ==> list[1..][k] == list[k + 1];
    }
  }

  lemma {:induction false} FineBlocks(list: seq<CStmt>, g: nat, w: World, o: Ops)
    ensures FineList(list, g, w, o) <==> Fine(Block(list), g, w, o)
    ensures FineList(list, g, w, o) <==> Fine(BlockNoBrace(list), g, w, o)
  {
    ListNamesUnused(list, g);
  }

  lemma {:induction false} BlockNamesUnused(b: seq<Stmt>, g: nat)
    ensures Unused(BlockNames(b), g) <==> forall k :: 0 <= k < |b| ==> Unused(StmtNames(b[k]), g)
  {
    if b != [] {
      BlockNamesUnused(b[1..], g);
      assert forall k :: 1 <= k < |b| ==> b[k] == b[1..][k - 1];
      assert forall k :: 0 <= k < |b| - 1 ==> b[1..][k] == b[k + 1];
    }
  }

  lemma {:induction false} FineLift(b: seq<Stmt>, g: nat, w: World, o: Ops)
    requires FineBlock(b, g)
    ensures FineList(Lift(b), g, w, o)
  {
    BlockNamesUnused(b, g);
    forall k | 0 <= k < |b| ensures Fine(Lift(b)[k], g, w, o) {
      assert Lift(b)[k] == Simple(b[k]);
    }
  }

  lemma {:induction false} FineListAppend(a: seq<CStmt>, b: seq<CStmt>, g: nat, w: World, o: Ops)
    requires FineList(a, g, w, o) && FineList(b, g, w, o)
    ensures FineList(a + b, g, w, o)
  {
  }

  /** Statements in front of a fine one. */
  lemma {:induction false} FineInFrontOf(before: seq<Stmt>, st: CStmt, g: nat, w: World, o: Ops)
    requires FineBlock(before, g) && Fine(st, g, w, o)
    ensures Fine(InFrontOf(before, st), g, w, o)
    ensures Fine(BlockNoBrace(Lift(before) + [st]), g, w, o)
  {
    FineLift(before, g, w, o);
    FineListAppend(Lift(before), [st], g, w, o);
    FineBlocks(Lift(before) + [st], g, w, o);
  }

  lemma {:induction false} FineJoin(cs: seq<Expr>, g: nat)
    requires |cs| > 0 && FineExprs(cs, g)
    ensures FineExpr(Join(cs), g)
  {
    if |cs| > 1 {
      FineJoin(cs[..|cs| - 1], g);
    }
  }

  lemma {:induction false} FineSplit(e: Expr, g: nat)
    requires FineExpr(e, g)
    ensures FineExprs(Split(e), g)
  {
    SplitReady(e, g);
  }

  lemma {:induction false} FineInFront(loop: bool, before: seq<Stmt>, test: Expr, body: CStmt, g: nat, w: World, o: Ops)
    requires FineBlock(before, g) && FineExpr(test, g) && Fine(body, g, w, o)
    ensures Fine(InFront(loop, before, test, body), g, w, o)
  {
    if !loop {
      FineInFrontOf(before, If(test, body), g, w, o);
    } else if body.Block? {
      var guard := If(Unary(Not, test), Break);
      FineInFrontOf(before, guard, g, w, o);
      var first := BlockNoBrace(Lift(before) + [guard]);
      FineBlocks(body.list, g, w, o);
      FineListAppend([first], body.list, g, w, o);
      FineBlocks([first] + body.list, g, w, o);
    }
  }

  lemma {:induction false} LastFine(loop: bool, c: Expr, tail: seq<Expr>, body: CStmt, g: nat, w: World, o: Ops)
    requires FineExpr(c, g) && FineExprs(tail, g) && Fine(body, g, w, o)
    ensures var h := Hoist(c, false, true, g);
            && g <= h.gen && FineExprs([h.e] + tail, h.gen) && Fine(body, h.gen, w, o)
            && Fine(InFront(loop, h.before, Join([h.e] + tail), body), h.gen, w, o)
  {
    var h := Hoist(c, false, true, g);
    HoistFine(c, false, true, g);
    FineLater(body, g, h.gen, w, o);
    var rest := [h.e] + tail;
    forall k | 0 <= k < |rest| ensures FineExpr(rest[k], h.gen) {
      assert k > 0 ==> rest[k] == tail[k - 1];
    }
    FineJoin(rest, h.gen);
    FineInFront(loop, h.before, Join(rest), body, h.gen, w, o);
  }

  lemma {:induction false} FixFine(loop: bool, front: seq<Expr>, tail: seq<Expr>, body: CStmt, g0: nat, g: nat,
                                   w: World, o: Ops)
    requires |front| > 0 && FineExprs(front, g0) && g0 <= g && FineExprs(tail, g) && Fine(body, g, w, o)
    ensures var f := FixAndAnd(loop, front, tail, body, g);
            && g <= f.gen && |f.clauses| > 0 && f.clauses[0] == front[0]
            && FineExprs(f.clauses, f.gen) && Fine(f.body, f.gen, w, o)
    decreases |front|
  {
    var n := |front| - 1;
    if n > 0 {
      var h := Hoist(front[n], false, true, g);
      var rest := [h.e] + tail;
      LastFine(loop, front[n], tail, body, g, w, o);
      if h.before == [] {
        FixFine(loop, front[..n], rest, body, g0, h.gen, w, o);
      } else {
        FixFine(loop, front[..n], [], InFront(loop, h.before, Join(rest), body), g0, h.gen, w, o);
      }
    }
  }

  lemma {:induction false} IfFine(c: Expr, thn: CStmt, g: nat, w: World, o: Ops)
    requires Fine(If(c, thn), g, w, o)
    ensures var (st, h) := RewriteIf(c, thn, g); g <= h && Fine(st, h, w, o)
  {
    FineSplit(c, g);
    FixFine(false, Split(c), [], thn, g, g, w, o);
    var f := FixAndAnd(false, Split(c), [], thn, g);
    FineJoin(f.clauses, f.gen);
    HoistFine(Join(f.clauses), false, true, f.gen);
    var h := Hoist(Join(f.clauses), false, true, f.gen);
    FineLater(f.body, f.gen, h.gen, w, o);
    FineInFrontOf(h.before, If(h.e, f.body), h.gen, w, o);
  }

  lemma {:induction false} IfElseFine(c: Expr, thn: CStmt, els: CStmt, g: nat, w: World, o: Ops)
    requires Fine(IfWithElse(c, thn, els), g, w, o)
    ensures var (st, h) := RewriteIfElse(c, thn, els, g); g <= h && Fine(st, h, w, o)
  {
    HoistFine(c, false, true, g);
    var h := Hoist(c, false, true, g);
    FineInFrontOf(h.before, IfWithElse(h.e, thn, els), h.gen, w, o);
  }

  lemma {:induction false} ReturnFine(e: Expr, g: nat, w: World, o: Ops)
    requires Fine(Return(e), g, w, o)
    ensures var (st, h) := RewriteReturn(e, g); g <= h && Fine(st, h, w, o)
  {
    HoistFine(e, false, true, g);
    var h := Hoist(e, false, true, g);
    FineInFrontOf(h.before, Return(h.e), h.gen, w, o);
  }

  lemma {:induction false} ExprStmtFine(e: Expr, g: nat, w: World, o: Ops)
    requires FineExpr(e, g)
    ensures var (st, h) := RewriteExprStmt(e, g); g <= h && Fine(st, h, w, o)
  {
    HoistFine(e, true, false, g);
    var h := Hoist(e, true, false, g);
    FinePieces(h, w, o);
    FineBlocks(Lift(h.before + [ExprStmt(h.e)] + h.after), h.gen, w, o);
  }

  /** before; the expression as a statement; after. */
  lemma {:induction false} FinePieces(h: Hoisted, w: World, o: Ops)
    requires FineExpr(h.e, h.gen) && FineBlock(h.before, h.gen) && FineBlock(h.after, h.gen)
    ensures FineBlock(h.before + [ExprStmt(h.e)] + h.after, h.gen)
    ensures FineList(Lift(h.before + [ExprStmt(h.e)] + h.after), h.gen, w, o)
  {
    var all := h.before + [ExprStmt(h.e)] + h.after;
    NamesOne(ExprStmt(h.e));
    NamesAppend(h.before, [ExprStmt(h.e)]);
    NamesAppend(h.before + [ExprStmt(h.e)], h.after);
    assert StmtReady(ExprStmt(h.e));
    FineLift(all, h.gen, w, o);
  }

  lemma {:induction false} DeclFine(v: Name, e: Expr, g: nat, w: World, o: Ops)
    requires Fine(Declare(v, e), g, w, o)
    ensures var (st, h) := RewriteDecl(v, e, g); g <= h && Fine(st, h, w, o)
  {
    HoistFine(e, true, false, g);
    HoistFootprint(e, true, false, g);
    assert Hoist(e, true, false, g) == Hoist(e, false, false, g);
    HoistLeavesResidual(e, false, g);
    var h := Hoist(e, true, false, g);
    var d := Declare(v, h.e);
    assert Fine(d, h.gen, w, o);
    FineLift(h.before, h.gen, w, o);
    FineLift(h.after, h.gen, w, o);
    FineListAppend([d], Lift(h.after), h.gen, w, o);
    FineListAppend(Lift(h.before), [d] + Lift(h.after), h.gen, w, o);
    FineBlocks(Lift(h.before) + ([d] + Lift(h.after)), h.gen, w, o);
  }

  lemma {:induction false} ResidualSplit(e: Expr)
    requires Residual(e)
    ensures forall k :: 0 <= k < |Split(e)| ==> Residual(Split(e)[k])
  {
    if e.AndAnd? {
      ResidualSplit(e.l);
    }
  }

  /** What hoisting left of a condition has no clause that moves. */
  lemma {:induction false} ResidualLoses(e: Expr, body: CStmt, o: Ops)
    requires Residual(e)
    ensures !Moves(Split(e)) && LostClauses(e, body) == [] && LosesNothing(e, body, o)
  {
    ResidualSplit(e);
    forall k | 0 <= k < |Split(e)| ensures !Hoists(Split(e)[k]) {
      ResidualStays(Split(e)[k], true, 0);
    }
  }

  lemma {:induction false} FineForced(body: CStmt, g: nat, w: World, o: Ops)
    requires Fine(body, g, w, o)
    ensures FineList(ForceBlock(body).list, g, w, o)
  {
    if body.Block? {
      FineBlocks(body.list, g, w, o);
    }
  }

  lemma {:induction false} FineGuard(test: Expr, g: nat, w: World, o: Ops)
    requires FineExpr(test, g)
    ensures Fine(If(Unary(Not, test), Break), g, w, o)
  {
    assert Names(Unary(Not, test)) == Names(test);
    assert StNames(Break) == {};
  }

  lemma {:induction false} MoveTestFine(h: Hoisted, body: CStmt, w: World, o: Ops)
    requires FineExpr(h.e, h.gen) && FineBlock(h.before, h.gen) && Fine(body, h.gen, w, o)
    ensures var (cond, body') := MoveTest(h, body);
            && Fine(body', h.gen, w, o)
            && (cond.Some? ==> FineExpr(cond.value, h.gen))
  {
    var guard := If(Unary(Not, h.e), Break);
    FineGuard(h.e, h.gen, w, o);
    FineForced(body, h.gen, w, o);
    FineLift(h.before, h.gen, w, o);
    FineListAppend(Lift(h.before), [guard], h.gen, w, o);
    FineListAppend(Lift(h.before) + [guard], ForceBlock(body).list, h.gen, w, o);
    FineBlocks(Lift(h.before) + [guard] + ForceBlock(body).list, h.gen, w, o);
  }

  lemma {:induction false} DoFine(body: CStmt, x: Expr, g: nat, w: World, o: Ops)
    requires Fine(Do(body, x), g, w, o)
    ensures Fine(For(RewriteDo(body, x)), g, w, o)
  {
    var guard := If(Unary(Not, x), Break);
    FineGuard(x, g, w, o);
    FineForced(body, g, w, o);
    FineListAppend(ForceBlock(body).list, [guard], g, w, o);
    FineBlocks(ForceBlock(body).list + [guard], g, w, o);
  }

  /** The parts of a for statement. */
  lemma {:induction false} FineParts(f: ForStmt, g: nat, w: World, o: Ops)
    ensures Fine(For(f), g, w, o) <==>
            && (f.pre.Some? ==> FineExpr(f.pre.value, g))
            && (f.cond.Some? ==> FineExpr(f.cond.value, g) && LosesNothing(f.cond.value, f.body, o))
            && PostReady(f.post) && Unused(PostNames(f.post), g)
            && Fine(f.body, g, w, o)
  {
  }

  lemma {:induction false} TestFine(f: ForStmt, g: nat, w: World, o: Ops)
    requires Fine(For(f), g, w, o)
    ensures var n := RewriteTest(f, g);
            g <= n.gen && Fine(For(n.f), n.gen, w, o) && FineBlock(n.before, n.gen)
  {
    FineParts(f, g, w, o);
    var fixed :=
      if f.cond.None? then Fixed([], f.body, g) else FixAndAnd(true, Split(f.cond.value), [], f.body, g);
    if f.cond.Some? {
      FineSplit(f.cond.value, g);
      FixFine(true, Split(f.cond.value), [], f.body, g, g, w, o);
    }
    var hp := if f.pre.None? then Hoisted(Number(0), [], [], fixed.gen) else Hoist(f.pre.value, true, true, fixed.gen);
    if f.pre.Some? {
      HoistFine(f.pre.value, true, true, fixed.gen);
    }
    FineLater(fixed.body, fixed.gen, hp.gen, w, o);
    var n := RewriteTest(f, g);
    if fixed.clauses != [] {
      FineJoin(fixed.clauses, hp.gen);
      var hc := Hoist(Join(fixed.clauses), false, true, hp.gen);
      HoistFine(Join(fixed.clauses), false, true, hp.gen);
      HoistLeavesResidual(Join(fixed.clauses), true, hp.gen);
      FineLater(fixed.body, hp.gen, hc.gen, w, o);
      MoveTestFine(hc, fixed.body, w, o);
      ResidualLoses(hc.e, MoveTest(hc, fixed.body).1, o);
    }
    FineParts(n.f, n.gen, w, o);
  }

  lemma {:induction false} PostFine(post: Post, g: nat)
    requires PostReady(post) && Unused(PostNames(post), g)
    ensures var (p, h) := RewritePost(post, g); g <= h && PostReady(p) && Unused(PostNames(p), h)
  {
    if post.PostExpr? {
      HoistFine(post.e, true, false, g);
      var h := Hoist(post.e, true, false, g);
      FinePieces(h, World((id, s) => (Normal, s), 0),
                 Ops((u, v) => v, (b, v, w) => v, (i, v) => v, (b, l, r) => false));
    }
  }

  lemma {:induction false} ForFine(f: ForStmt, g: nat, w: World, o: Ops)
    requires Fine(For(f), g, w, o)
    ensures var (st, h) := Visit1(For(f), g); g <= h && Fine(st, h, w, o)
  {
    TestFine(f, g, w, o);
    var n := RewriteTest(f, g);
    if n.before != [] {
      FineInFrontOf(n.before, For(n.f), n.gen, w, o);
    } else {
      FineParts(n.f, n.gen, w, o);
      assert n.f.post == f.post;
      PostFine(f.post, n.gen);
      var (post, h) := RewritePost(f.post, n.gen);
      FineLater(n.f.body, n.gen, h, w, o);
      FineParts(n.f.(post := post), h, w, o);
    }
  }

  lemma {:induction false} Visit1Fine(st: CStmt, g: nat, w: World, o: Ops)
    requires Fine(st, g, w, o)
    ensures g <= Visit1(st, g).1 && Fine(Visit1(st, g).0, Visit1(st, g).1, w, o)
  {
    match st
    case Simple(x) =>
      match x {
        case ExprStmt(e) => ExprStmtFine(e, g, w, o);
        case DeclStmt(_) =>
        case IfElse(c, thn, els) => IfElseFine(c, Simple(thn), Simple(els), g, w, o);
      }
    case Declare(v, e) => DeclFine(v, e, g, w, o);
    case Return(e) => ReturnFine(e, g, w, o);
    case If(c, thn) => IfFine(c, thn, g, w, o);
    case IfWithElse(c, thn, els) => IfElseFine(c, thn, els, g, w, o);
    case For(f) => ForFine(f, g, w, o);
    case Do(body, x) => DoFine(body, x, g, w, o);
    case _ =>
  }

  // ----- the traversal ends -----

  function Max(a: nat, b: nat): nat {
    if a <= b then b else a
  }

  /** A whole-statement expression that is taken apart. */
  predicate StmtHoists(e: Expr) {
    Hoist(e, true, false, 0).before != [] || Hoist(e, true, false, 0).after != []
  }

  predicate PreHoists(pre: Option<Expr>) {
    pre.Some? && Hoist(pre.value, true, true, 0).before != []
  }

  /** How many of the clauses hoist. */
  function HoistCount(cs: seq<Expr>): nat {
    if cs == [] then 0 else (if Hoists(cs[0]) then 1 else 0) + HoistCount(cs[1..])
  }

  function StmtLevel(st: Stmt): (n: nat)
    ensures n >= 1
  {
    match st
    case ExprStmt(e) => if StmtHoists(e) then 4 else 1
    case DeclStmt(_) => 1
    case IfElse(c, thn, els) => 1 + (if Hoists(c) then 3 else 0) + Max(StmtLevel(thn), StmtLevel(els))
  }

  /** How deep the traversal goes below a statement, at most. */
  function Level(st: CStmt): (n: nat)
    ensures n >= 1
    decreases st, 1
  {
    match st
    case Simple(x) => StmtLevel(x)
    case Declare(_, e) => if StmtHoists(e) then 4 else 1
    case Return(e) => if Hoists(e) then 4 else 1
    case If(c, thn) => 1 + 3 * HoistCount(Split(c)) + Level(thn)
    case IfWithElse(c, thn, els) => 1 + (if Hoists(c) then 3 else 0) + Max(Level(thn), Level(els))
    case Block(list) => 1 + ListLevel(list)
    case BlockNoBrace(list) => 1 + ListLevel(list)
    case For(f) => 1 + (if PreHoists(f.pre) then 7 else 0) + (if CondHoists(f.cond) then 5 else 0) + Level(f.body)
    case Do(body, _) => 9 + Level(body)
    case _ => 1
  }

  predicate CondHoists(cond: Option<Expr>) {
    cond.Some? && HoistCount(Split(cond.value)) > 0
  }

  function ListLevel(list: seq<CStmt>): nat
    decreases list, 0
  {
    if list == [] then 0 else Max(Level(list[0]), ListLevel(list[1..]))
  }

  /** The levels of the parts of a statement. */
  function PartLevel(st: CStmt): nat {
    match st
    case If(_, thn) => Level(thn)
    case IfWithElse(_, thn, els) => Max(Level(thn), Level(els))
    case Block(list) => ListLevel(list)
    case BlockNoBrace(list) => ListLevel(list)
    case For(f) => Level(f.body)
    case _ => 0
  }

  lemma {:induction false} ListLevelAppend(a: seq<CStmt>, b: seq<CStmt>)
    ensures ListLevel(a + b) == Max(ListLevel(a), ListLevel(b))
  {
    if a == [] {
      assert a + b == b;
    } else {
      ListLevelAppend(a[1..], b);
      assert (a + b)[1..] == a[1..] + b;
    }
  }

  lemma {:induction false} ListLevelOne(st: CStmt)
    ensures ListLevel([st]) == Level(st)
  {
    assert [st][1..] == [];
  }

  /** A statement with nothing left to rewrite. */
  ghost predicate StmtSettled(st: Stmt) {
    match st
    case ExprStmt(e) => Settled1(e)
    case DeclStmt(_) => true
    case IfElse(c, thn, els) => Residual(c) && StmtSettled(thn) && StmtSettled(els)
  }

  /** Statements that hoisting made are not taken apart again. */
  ghost predicate Low(b: seq<Stmt>) {
    forall k :: 0 <= k < |b| ==> StmtLevel(b[k]) <= 2 && StmtSettled(b[k])
  }

  lemma {:induction false} LiftLow(b: seq<Stmt>)
    requires Low(b)
    ensures ListLevel(Lift(b)) <= 2
  {
    if b != [] {
      assert forall k :: 0 <= k < |b| - 1 ==> b[1..][k] == b[k + 1];
      LiftLow(b[1..]);
      assert Lift(b)[1..] == Lift(b[1..]);
      assert Lift(b)[0] == Simple(b[0]);
    }
  }

  lemma {:induction false} ResidualLevel(e: Expr)
    requires Residual(e)
    ensures !Hoists(e) && !StmtHoists(e) && HoistCount(Split(e)) == 0
    ensures Hoist(e, true, true, 0) == Hoisted(e, [], [], 0)
  {
    ResidualStays(e, true, 0);
    ResidualStays(e, false, 0);
    assert Hoist(e, true, false, 0) == Hoist(e, false, false, 0) && Hoist(e, true, true, 0) == Hoist(e, false, true, 0);
    ResidualSplit(e);
    NoneHoist(Split(e));
  }

  lemma {:induction false} NoneHoist(cs: seq<Expr>)
    requires forall k :: 0 <= k < |cs| ==> Residual(cs[k])
    ensures HoistCount(cs) == 0
  {
    if cs != [] {
      ResidualStays(cs[0], true, 0);
      assert forall k :: 0 <= k < |cs| - 1 ==> cs[1..][k] == cs[k + 1];
      NoneHoist(cs[1..]);
    }
  }

  /** What is left at the top of a whole statement. */
  ghost predicate Settled1(e: Expr) {
    Residual(e) || (e.Assign? && Residual(e.r)) || (e.IncDec? && !e.prefix)
  }

  lemma {:induction false} SettledLevel(e: Expr)
    requires Settled1(e)
    ensures !StmtHoists(e) && Hoist(e, true, true, 0).before == []
  {
    SettledStays(e, false, 0);
    SettledStays(e, true, 0);
  }

  /** Visiting what a visit left of a whole statement changes nothing. */
  lemma {:induction false} SettledStays(e: Expr, noAfter: bool, g: nat)
    requires Settled1(e)
    ensures Hoist(e, true, noAfter, g) == Hoisted(e, [], [], g)
  {
    if Residual(e) {
      ResidualStays(e, noAfter, g);
      assert Hoist(e, true, noAfter, g) == Hoist(e, false, noAfter, g);
    } else if e.Assign? {
      ResidualStays(e.r, noAfter, g);
    }
  }

  lemma {:induction false} HoistSettles(e: Expr, noAfter: bool, g: nat)
    ensures Settled1(Hoist(e, true, noAfter, g).e)
  {
    if e.Assign? {
      HoistLeavesResidual(e.r, noAfter, g);
    } else if !e.IncDec? {
      assert Hoist(e, true, noAfter, g) == Hoist(e, false, noAfter, g);
      HoistLeavesResidual(e, noAfter, g);
    }
  }

  ghost predicate LowAt(x: Expr, stmt: bool, noAfter: bool, g: nat) {
    Low(Hoist(x, stmt, noAfter, g).before) && Low(Hoist(x, stmt, noAfter, g).after)
  }

  lemma {:induction false} PiecesLow(x: Expr, stmt: bool, noAfter: bool, g: nat)
    ensures LowAt(x, stmt, noAfter, g)
  {
    match x
    case Number(_) =>
    case Var(_) =>
    case Unary(_, a) => PiecesLow(a, false, noAfter, g);
    case Paren(a) => PiecesLow(a, false, noAfter, g);
    case Binary(_, l, r) =>
      var hl := Hoist(l, false, noAfter, g);
      var hr := Hoist(r, false, noAfter, hl.gen);
      PiecesLow(l, false, noAfter, g);
      PiecesLow(r, false, noAfter, hl.gen);
      LowAppend(hl.before, hr.before);
      LowAppend(hl.after, hr.after);
    case AndAnd(l, _) => PiecesLow(l, false, true, g);
    case OrOr(l, _) => PiecesLow(l, false, true, g);
    case Cond(c, y, z) =>
      PiecesLow(c, false, true, g);
      CondLow(c, y, z, stmt, noAfter, g);
    case Assign(op, v, r) =>
      PiecesLow(r, false, noAfter, g);
      AssignLow(op, v, r, stmt, noAfter, g);
    case IncDec(_, inc, v) => StepLow(inc, v, Tmp(g));
    case SideEffectFunc(_, _, value, _) => PiecesLow(value, false, noAfter, g);
  }

  lemma {:induction false} LowAppend(a: seq<Stmt>, b: seq<Stmt>)
    requires Low(a) && Low(b)
    ensures Low(a + b)
  {
  }

  lemma {:induction false} AssignLow(op: AssignOp, v: Name, r: Expr, stmt: bool, noAfter: bool, g: nat)
    requires LowAt(r, false, noAfter, g)
    ensures LowAt(Assign(op, v, r), stmt, noAfter, g)
  {
    var h := Hoist(r, false, noAfter, g);
    HoistLeavesResidual(r, noAfter, g);
    SettledLevel(Assign(op, v, h.e));
    LowAppend(h.before, [ExprStmt(Assign(op, v, h.e))]);
  }

  lemma {:induction false} StepLow(inc: bool, v: Name, t: Name)
    ensures StmtLevel(ExprStmt(IncDec(false, inc, v))) == 1 && Settled1(IncDec(false, inc, v))
    ensures StmtLevel(ExprStmt(Assign(ColonEq, t, Var(v)))) == 1 && Settled1(Assign(ColonEq, t, Var(v)))
  {
    assert Residual(Var(v));
    SettledLevel(IncDec(false, inc, v));
    SettledLevel(Assign(ColonEq, t, Var(v)));
  }

  lemma {:induction false} ChoiceLow(t: Name, c: Expr, y: Expr, z: Expr)
    requires Residual(c) && Residual(y) && Residual(z)
    ensures Low([DeclStmt(t), Choice(t, c, y, z)])
  {
    ResidualLevel(c);
    SettledLevel(Assign(Set, t, y));
    SettledLevel(Assign(Set, t, z));
    assert StmtLevel(ExprStmt(Assign(Set, t, y))) == 1 && StmtLevel(ExprStmt(Assign(Set, t, z))) == 1;
    assert StmtLevel(Choice(t, c, y, z)) == 2;
  }

  lemma {:induction false} CondLow(c: Expr, y: Expr, z: Expr, stmt: bool, noAfter: bool, g: nat)
    requires LowAt(c, false, true, g)
    ensures LowAt(Cond(c, y, z), stmt, noAfter, g)
  {
    var hc := Hoist(c, false, true, g);
    var hy := Hoist(y, false, false, hc.gen);
    var hz := Hoist(z, false, false, hy.gen);
    HoistLeavesResidual(c, true, g);
    HoistLeavesResidual(y, false, hc.gen);
    HoistLeavesResidual(z, false, hy.gen);
    var t, y', z' := Tmp(hz.gen), Wrapped("unknown", hy), Wrapped("unknown", hz);
    assert Residual(y') && Residual(z');
    ChoiceLow(t, hc.e, y', z');
    LowAppend(hc.before, [DeclStmt(t), Choice(t, hc.e, y', z')]);
    assert Hoist(Cond(c, y, z), stmt, noAfter, g) == HoistedCond(hc, hy, hz);
  }

  /** Statements that hoisting made, in front of another. */
  lemma {:induction false} InFrontLevel(before: seq<Stmt>, st: CStmt)
    requires Low(before)
    ensures PartLevel(InFrontOf(before, st)) <= if before == [] then PartLevel(st) else Max(2, Level(st))
    ensures Level(BlockNoBrace(Lift(before) + [st])) <= 1 + Max(2, Level(st))
  {
    LiftLow(before);
    ListLevelAppend(Lift(before), [st]);
    ListLevelOne(st);
  }

  lemma {:induction false} HoistsAnywhere(c: Expr, g: nat)
    ensures Hoists(c) <==> Hoist(c, false, true, g).before != []
  {
    SameShape(c, false, true, g, 0);
  }

  lemma {:induction false} StmtHoistsAnywhere(e: Expr, g: nat)
    ensures var h := Hoist(e, true, false, g); StmtHoists(e) <==> h.before != [] || h.after != []
  {
    SameShape(e, true, false, g, 0);
  }

  lemma {:induction false} ResidualJoin(cs: seq<Expr>)
    requires |cs| > 0 && forall k :: 0 <= k < |cs| ==> Residual(cs[k])
    ensures Residual(Join(cs))
  {
    if |cs| > 1 {
      ResidualJoin(cs[..|cs| - 1]);
    }
  }

  lemma {:induction false} HoistCountAppend(a: seq<Expr>, b: seq<Expr>)
    ensures HoistCount(a + b) == HoistCount(a) + HoistCount(b)
  {
    if a == [] {
      assert a + b == b;
    } else {
      HoistCountAppend(a[1..], b);
      assert (a + b)[1..] == a[1..] + b;
    }
  }

  lemma {:induction false} HoistCountOne(c: Expr)
    ensures HoistCount([c]) == if Hoists(c) then 1 else 0
  {
    assert [c][1..] == [];
  }

  ghost predicate AllResidual(cs: seq<Expr>) {
    forall k :: 0 <= k < |cs| ==> Residual(cs[k])
  }

  /** A residual test in front of an if's body, or as a guard at the top of a loop's. */
  lemma {:induction false} TestLevel(loop: bool, before: seq<Stmt>, test: Expr, body: CStmt)
    requires Low(before) && Residual(test)
    ensures var b := InFront(loop, before, test, body);
            if !loop then Level(b) <= 2 + Level(body)
            else if body.Block? then b.Block? && Level(b) <= Max(4, Level(body))
            else b == body
  {
    ResidualLevel(test);
    if !loop {
      InFrontLevel(before, If(test, body));
    } else if body.Block? {
      var guard := If(Unary(Not, test), Break);
      GuardLevel(test);
      InFrontLevel(before, guard);
      var first := BlockNoBrace(Lift(before) + [guard]);
      ListLevelAppend([first], body.list);
      ListLevelOne(first);
    }
  }

  lemma {:induction false} GuardLevel(test: Expr)
    ensures Level(If(Unary(Not, test), Break)) <= 5
    ensures Residual(test) ==> Level(If(Unary(Not, test), Break)) == 2
  {
    HoistCountOne(Unary(Not, test));
    if Residual(test) {
      ResidualLevel(Unary(Not, test));
    }
  }

  lemma {:induction false} OneMoreCount(front: seq<Expr>)
    requires |front| > 1
    ensures var n := |front| - 1;
            HoistCount(front[1..]) == HoistCount(front[..n][1..]) + if Hoists(front[n]) then 1 else 0
  {
    var n := |front| - 1;
    assert front[..n][1..] + [front[n]] == front[1..];
    HoistCountAppend(front[..n][1..], [front[n]]);
    HoistCountOne(front[n]);
  }

  /** How much deeper the fixed body is. */
  lemma {:induction false} FixLevel(loop: bool, front: seq<Expr>, tail: seq<Expr>, body: CStmt, g: nat)
    requires |front| > 0 && AllResidual(tail)
    ensures var f := FixAndAnd(loop, front, tail, body, g);
            && |f.clauses| > 0 && f.clauses[0] == front[0] && AllResidual(f.clauses[1..])
            && (HoistCount(front[1..]) == 0 ==> f.body == body)
            && (if loop then Level(f.body) <= Max(4, Level(body))
                else Level(f.body) <= Level(body) + 2 * HoistCount(front[1..]))
    decreases |front|
  {
    var n := |front| - 1;
    if n > 0 {
      var c, h := front[n], Hoist(front[n], false, true, g);
      HoistsAnywhere(c, g);
      HoistLeavesResidual(c, true, g);
      PiecesLow(c, false, true, g);
      var rest := [h.e] + tail;
      OneMoreCount(front);
      assert AllResidual(rest);
      if h.before == [] {
        FixLevel(loop, front[..n], rest, body, h.gen);
      } else {
        ResidualJoin(rest);
        TestLevel(loop, h.before, Join(rest), body);
        FixLevel(loop, front[..n], [], InFront(loop, h.before, Join(rest), body), h.gen);
      }
    }
  }

  /** What becomes of the condition when it is hoisted from at last. */
  lemma {:induction false} JoinLevel(cs: seq<Expr>, g: nat)
    requires |cs| > 0 && AllResidual(cs[1..])
    ensures var h := Hoist(Join(cs), false, true, g);
            && (h.before != [] <==> Hoists(cs[0])) && Low(h.before) && Residual(h.e)
  {
    assert forall k :: 1 <= k < |cs| ==> Residual(cs[k]) by {
      assert forall k :: 1 <= k < |cs| ==> cs[k] == cs[1..][k - 1];
    }
    HoistOfJoin(cs, g);
    HoistsAnywhere(cs[0], g);
    HoistLeavesResidual(Join(cs), true, g);
    PiecesLow(Join(cs), false, true, g);
  }

  lemma {:induction false} IfLevel(c: Expr, thn: CStmt, g: nat)
    ensures PartLevel(RewriteIf(c, thn, g).0) < Level(If(c, thn))
  {
    var front := Split(c);
    var f := FixAndAnd(false, front, [], thn, g);
    FixLevel(false, front, [], thn, g);
    JoinLevel(f.clauses, f.gen);
    var h := Hoist(Join(f.clauses), false, true, f.gen);
    ResidualLevel(h.e);
    InFrontLevel(h.before, If(h.e, f.body));
    assert HoistCount(front) == (if Hoists(front[0]) then 1 else 0) + HoistCount(front[1..]);
  }

  lemma {:induction false} IfElseLevel(c: Expr, thn: CStmt, els: CStmt, g: nat)
    ensures PartLevel(RewriteIfElse(c, thn, els, g).0) < Level(IfWithElse(c, thn, els))
  {
    var h := Hoist(c, false, true, g);
    HoistsAnywhere(c, g);
    HoistLeavesResidual(c, true, g);
    ResidualLevel(h.e);
    PiecesLow(c, false, true, g);
    InFrontLevel(h.before, IfWithElse(h.e, thn, els));
  }

  lemma {:induction false} ReturnLevel(e: Expr, g: nat)
    ensures PartLevel(RewriteReturn(e, g).0) < Level(Return(e))
  {
    var h := Hoist(e, false, true, g);
    HoistsAnywhere(e, g);
    HoistLeavesResidual(e, true, g);
    ResidualLevel(h.e);
    PiecesLow(e, false, true, g);
    InFrontLevel(h.before, Return(h.e));
  }

  lemma {:induction false} ExprStmtLevel(e: Expr, g: nat)
    ensures PartLevel(RewriteExprStmt(e, g).0) < Level(Simple(ExprStmt(e)))
  {
    var h := Hoist(e, true, false, g);
    StmtHoistsAnywhere(e, g);
    HoistSettles(e, false, g);
    SettledLevel(h.e);
    PiecesLow(e, true, false, g);
    assert Low([ExprStmt(h.e)]);
    LowAppend(h.before, [ExprStmt(h.e)]);
    LowAppend(h.before + [ExprStmt(h.e)], h.after);
    LiftLow(h.before + [ExprStmt(h.e)] + h.after);
  }

  lemma {:induction false} DeclLevel(v: Name, e: Expr, g: nat)
    ensures PartLevel(RewriteDecl(v, e, g).0) < Level(Declare(v, e))
  {
    var h := Hoist(e, true, false, g);
    StmtHoistsAnywhere(e, g);
    HoistSettles(e, false, g);
    SettledLevel(h.e);
    PiecesLow(e, true, false, g);
    LiftLow(h.before);
    LiftLow(h.after);
    ListLevelOne(Declare(v, h.e));
    ListLevelAppend([Declare(v, h.e)], Lift(h.after));
    ListLevelAppend(Lift(h.before), [Declare(v, h.e)] + Lift(h.after));
  }

  lemma {:induction false} ForcedLevel(body: CStmt)
    ensures ListLevel(ForceBlock(body).list) <= Level(body)
  {
    if !body.Block? {
      ListLevelOne(body);
    }
  }

  lemma {:induction false} MoveTestLevel(h: Hoisted, body: CStmt)
    requires Low(h.before) && Residual(h.e)
    ensures Level(MoveTest(h, body).1) <= Level(body) + (if h.before == [] then 0 else 2)
  {
    var guard := If(Unary(Not, h.e), Break);
    GuardLevel(h.e);
    LiftLow(h.before);
    ForcedLevel(body);
    ListLevelOne(guard);
    ListLevelAppend(Lift(h.before), [guard]);
    ListLevelAppend(Lift(h.before) + [guard], ForceBlock(body).list);
  }

  lemma {:induction false} DoLevel(body: CStmt, x: Expr)
    ensures PartLevel(For(RewriteDo(body, x))) < Level(Do(body, x))
  {
    var guard := If(Unary(Not, x), Break);
    GuardLevel(x);
    ForcedLevel(body);
    ListLevelOne(guard);
    ListLevelAppend(ForceBlock(body).list, [guard]);
  }

  /** The rewritten test is settled, and the body not much deeper. */
  lemma {:induction false} TestPartLevel(f: ForStmt, g: nat)
    ensures var n := RewriteTest(f, g);
            && (n.before != [] <==> PreHoists(f.pre)) && Low(n.before)
            && !PreHoists(n.f.pre) && !CondHoists(n.f.cond) && n.f.post == f.post
            && Level(n.f.body) <= Level(f.body) + (if CondHoists(f.cond) then 5 else 0)
  {
    var fixed :=
      if f.cond.None? then Fixed([], f.body, g) else FixAndAnd(true, Split(f.cond.value), [], f.body, g);
    var hp := if f.pre.None? then Hoisted(Number(0), [], [], fixed.gen) else Hoist(f.pre.value, true, true, fixed.gen);
    if f.pre.Some? {
      SameShape(f.pre.value, true, true, fixed.gen, 0);
      HoistSettles(f.pre.value, true, fixed.gen);
      SettledLevel(hp.e);
      PiecesLow(f.pre.value, true, true, fixed.gen);
    }
    if f.cond.Some? {
      CondLevel(f.cond.value, f.body, g, hp.gen);
    }
  }

  lemma {:induction false} CondLevel(e: Expr, body: CStmt, g: nat, g2: nat)
    ensures var f := FixAndAnd(true, Split(e), [], body, g);
            && f.clauses != []
            && var (cond, body') := MoveTest(Hoist(Join(f.clauses), false, true, g2), f.body);
               && !CondHoists(cond)
               && Level(body') <= Level(body) + (if CondHoists(Some(e)) then 5 else 0)
  {
    var front := Split(e);
    var f := FixAndAnd(true, front, [], body, g);
    FixLevel(true, front, [], body, g);
    JoinLevel(f.clauses, g2);
    var h := Hoist(Join(f.clauses), false, true, g2);
    ResidualLevel(h.e);
    MoveTestLevel(h, f.body);
    assert HoistCount(front) == (if Hoists(front[0]) then 1 else 0) + HoistCount(front[1..]);
  }

  lemma {:induction false} ForLevel(f: ForStmt, g: nat)
    ensures PartLevel(Visit1(For(f), g).0) < Level(For(f))
  {
    TestPartLevel(f, g);
    var n := RewriteTest(f, g);
    if n.before != [] {
      InFrontLevel(n.before, For(n.f));
    }
  }

  /** The parts of what a visit makes are less deep than the statement was. */
  lemma {:induction false} LevelDrops(st: CStmt, g: nat)
    ensures PartLevel(Visit1(st, g).0) < Level(st)
  {
    match st
    case Simple(x) =>
      match x {
        case ExprStmt(e) => ExprStmtLevel(e, g);
        case DeclStmt(_) =>
        case IfElse(c, thn, els) => IfElseLevel(c, Simple(thn), Simple(els), g);
      }
    case Declare(v, e) => DeclLevel(v, e, g);
    case Return(e) => ReturnLevel(e, g);
    case If(c, thn) => IfLevel(c, thn, g);
    case IfWithElse(c, thn, els) => IfElseLevel(c, thn, els, g);
    case For(f) => ForLevel(f, g);
    case Do(body, x) => DoLevel(body, x);
    case _ =>
  }

  /** The traversal: a visit to a statement, then to the parts of what that made of it. */
  function Visit(st: CStmt, g: nat): (CStmt, nat)
    decreases Level(st), 0, 0
  {
    LevelDrops(st, g);
    VisitParts(Visit1(st, g).0, Visit1(st, g).1)
  }

  function VisitParts(st: CStmt, g: nat): (CStmt, nat)
    decreases PartLevel(st), 2, 0
  {
    match st
    case If(c, thn) => (If(c, Visit(thn, g).0), Visit(thn, g).1)
    case IfWithElse(c, thn, els) =>
      var (t, h) := Visit(thn, g);
      var (e, k) := Visit(els, h);
      (IfWithElse(c, t, e), k)
    case Block(list) => (Block(VisitList(list, g).0), VisitList(list, g).1)
    case BlockNoBrace(list) => (BlockNoBrace(VisitList(list, g).0), VisitList(list, g).1)
    case For(f) => (For(ForStmt(f.pre, f.cond, f.post, Visit(f.body, g).0)), Visit(f.body, g).1)
    case _ => (st, g)
  }

  function VisitList(list: seq<CStmt>, g: nat): (seq<CStmt>, nat)
    decreases ListLevel(list), 1, |list|
  {
    if list == [] then ([], g)
    else
      var (x, h) := Visit(list[0], g);
      var (rest, k) := VisitList(list[1..], h);
      ([x] + rest, k)
  }

  // ----- the traversal keeps the run -----

  ghost predicate ListEquiv(a: seq<CStmt>, b: seq<CStmt>, g: nat, w: World, o: Ops) {
    forall s: Store, t: Store :: Start(s, t, g) ==> Alike(RunList(a, s, w, o), RunList(b, t, w, o), g)
  }

  /** A statement that is fine for g, and runs like another but for temporaries from h up,
      runs like it but for those from g up. */
  lemma {:induction false} EquivLower(a: CStmt, b: CStmt, g: nat, h: nat, w: World, o: Ops)
    requires Fine(a, g, w, o) && Blind(w) && g <= h && Equiv(a, b, h, w, o)
    ensures Equiv(a, b, g, w, o)
  {
    forall s: Store, t: Store | Start(s, t, g) ensures Alike(Run(a, s, w, o), Run(b, t, w, o), g) {
      RunBelow(a, g, s, t, w, o);
      assert Start(t, t, h);
      assert Alike(Run(a, t, w, o), Run(b, t, w, o), h);
    }
  }

  lemma {:induction false} ListEquivLower(a: seq<CStmt>, b: seq<CStmt>, g: nat, h: nat, w: World, o: Ops)
    requires FineList(a, g, w, o) && Blind(w) && g <= h && ListEquiv(a, b, h, w, o)
    ensures ListEquiv(a, b, g, w, o)
  {
    ListNamesUnused(a, g);
    forall s: Store, t: Store | Start(s, t, g) ensures Alike(RunList(a, s, w, o), RunList(b, t, w, o), g) {
      ListBelow(a, g, s, t, w, o);
      assert Start(t, t, h);
      assert Alike(RunList(a, t, w, o), RunList(b, t, w, o), h);
    }
  }

  lemma {:induction false} ConsEquiv(x: CStmt, y: CStmt, a: seq<CStmt>, b: seq<CStmt>, g: nat, w: World, o: Ops)
    requires Equiv(x, y, g, w, o) && ListEquiv(a, b, g, w, o)
    ensures ListEquiv([x] + a, [y] + b, g, w, o)
  {
    assert ([x] + a)[1..] == a && ([y] + b)[1..] == b;
    forall s: Store, t: Store | Start(s, t, g)
      ensures Alike(RunList([x] + a, s, w, o), RunList([y] + b, t, w, o), g)
    {
      assert Alike(Run(x, s, w, o), Run(y, t, w, o), g);
      var s1, t1 := Run(x, s, w, o).1, Run(y, t, w, o).1;
      assert Run(x, s, w, o).0 == Normal ==> Start(s1, t1, g);
    }
  }

  lemma {:induction false} IfEquiv(c: Expr, a: CStmt, b: CStmt, g: nat, w: World, o: Ops)
    requires Unused(Names(c), g) && Equiv(a, b, g, w, o)
    ensures Equiv(If(c, a), If(c, b), g, w, o)
  {
    forall s: Store, t: Store | Start(s, t, g) ensures Alike(Run(If(c, a), s, w, o), Run(If(c, b), t, w, o), g) {
      EvalBelow(c, s, t, g, o);
      assert Start(Eval(c, s, o).1, Eval(c, t, o).1, g);
    }
  }

  lemma {:induction false} IfElseEquiv(c: Expr, a: CStmt, b: CStmt, a': CStmt, b': CStmt, g: nat, w: World, o: Ops)
    requires Unused(Names(c), g) && Equiv(a, b, g, w, o) && Equiv(a', b', g, w, o)
    ensures Equiv(IfWithElse(c, a, a'), IfWithElse(c, b, b'), g, w, o)
  {
    forall s: Store, t: Store | Start(s, t, g)
      ensures Alike(Run(IfWithElse(c, a, a'), s, w, o), Run(IfWithElse(c, b, b'), t, w, o), g)
    {
      EvalBelow(c, s, t, g, o);
      var s1, t1 := Eval(c, s, o).1, Eval(c, t, o).1;
      assert Start(s1, t1, g);
      BranchesAlike(c, a, b, a', b', g, s, t, w, o);
    }
  }

  lemma {:induction false} BranchesAlike(c: Expr, a: CStmt, b: CStmt, a': CStmt, b': CStmt, g: nat, s: Store, t: Store,
                                         w: World, o: Ops)
    requires Eval(c, s, o).0 == Eval(c, t, o).0
    requires var s1, t1 := Eval(c, s, o).1, Eval(c, t, o).1;
             Alike(Run(a, s1, w, o), Run(b, t1, w, o), g) && Alike(Run(a', s1, w, o), Run(b', t1, w, o), g)
    ensures Alike(Run(IfWithElse(c, a, a'), s, w, o), Run(IfWithElse(c, b, b'), t, w, o), g)
  {
  }

  lemma {:induction false} BlockEquiv(a: seq<CStmt>, b: seq<CStmt>, g: nat, w: World, o: Ops)
    requires ListEquiv(a, b, g, w, o)
    ensures Equiv(Block(a), Block(b), g, w, o) && Equiv(BlockNoBrace(a), BlockNoBrace(b), g, w, o)
  {
    forall s: Store, t: Store | Start(s, t, g)
      ensures Alike(Run(Block(a), s, w, o), Run(Block(b), t, w, o), g)
      ensures Alike(Run(BlockNoBrace(a), s, w, o), Run(BlockNoBrace(b), t, w, o), g)
    {
      assert Alike(RunList(a, s, w, o), RunList(b, t, w, o), g);
    }
  }

  lemma {:induction false} LoopEquiv(f: ForStmt, b: CStmt, g: nat, w: World, o: Ops)
    requires Fine(For(f), g, w, o) && Equiv(f.body, b, g, w, o)
    ensures Equiv(For(f), For(ForStmt(f.pre, f.cond, f.post, b)), g, w, o)
  {
    FineParts(f, g, w, o);
    BodiesMatch(f.cond, f.body, b, g, w, o);
    PostsMatch(f.post, g, o);
    forall s: Store, t: Store | Start(s, t, g)
      ensures Alike(Run(For(f), s, w, o), Run(For(ForStmt(f.pre, f.cond, f.post, b)), t, w, o), g)
    {
      PreBelow(f.pre, g, s, t, o);
      LoopsMatch(f.cond, f.post, f.body, f.cond, f.post, b, AfterPre(f.pre, s, o), AfterPre(f.pre, t, o),
                 w.rounds, g, w, o);
    }
  }

  lemma {:induction false} BodiesMatch(cond: Option<Expr>, a: CStmt, b: CStmt, g: nat, w: World, o: Ops)
    requires Unused(OptNames(cond), g) && Equiv(a, b, g, w, o)
    ensures Matches(true, Clauses(cond), a, Clauses(cond), b, g, w, o)
  {
    forall s: Store, t: Store | Start(s, t, g)
      ensures Alike(Tested(true, Clauses(cond), a, s, w, o), Tested(true, Clauses(cond), b, t, w, o), g)
    {
      TestBelow(cond, g, s, t, o);
      assert Start(EvalAll(Clauses(cond), s, o).1, EvalAll(Clauses(cond), t, o).1, g);
    }
  }

  lemma {:induction false} PostsMatch(post: Post, g: nat, o: Ops)
    requires Unused(PostNames(post), g)
    ensures PostMatches(post, post, g, o)
  {
    forall s: Store, t: Store | Start(s, t, g) ensures SameBelow(RunPost(post, s, o), RunPost(post, t, o), g) {
      PostBelow(post, g, s, t, o);
    }
  }

  /** Main result: the traversal of any statement tree ends, and the statement it makes runs
      like the original: the same end and, outside the new temporaries, the same store. */
  lemma {:induction false} VisitMeans(st: CStmt, g: nat, w: World, o: Ops)
    requires Fine(st, g, w, o) && Blind(w) && LogicalNot(o)
    ensures g <= Visit(st, g).1 && Equiv(st, Visit(st, g).0, g, w, o)
    decreases Level(st), 0, 0
  {
    var (st1, h) := Visit1(st, g);
    LevelDrops(st, g);
    Visit1Means(st, g, w, o);
    Visit1Fine(st, g, w, o);
    PartsMean(st1, h, w, o);
    Transitive(st, st1, Visit(st, g).0, g, h, w, o);
  }

  lemma {:induction false} Transitive(a: CStmt, b: CStmt, c: CStmt, g: nat, h: nat, w: World, o: Ops)
    requires Equiv(a, b, g, w, o) && Equiv(b, c, h, w, o) && g <= h
    ensures Equiv(a, c, g, w, o)
  {
    forall s: Store, t: Store | Start(s, t, g) ensures Alike(Run(a, s, w, o), Run(c, t, w, o), g) {
      assert Alike(Run(a, s, w, o), Run(b, t, w, o), g);
      assert Start(t, t, h);
      assert Alike(Run(b, t, w, o), Run(c, t, w, o), h);
    }
  }

  lemma {:induction false} PartsMean(st: CStmt, g: nat, w: World, o: Ops)
    requires Fine(st, g, w, o) && Blind(w) && LogicalNot(o)
    ensures g <= VisitParts(st, g).1 && Equiv(st, VisitParts(st, g).0, g, w, o)
    decreases PartLevel(st), 3, 0
  {
    match st
    case If(c, thn) =>
      FineIf(c, thn, g, w, o);
      VisitMeans(thn, g, w, o);
      IfEquiv(c, thn, Visit(thn, g).0, g, w, o);
    case IfWithElse(c, thn, els) => IfElseMean(c, thn, els, g, w, o);
    case Block(list) => BlockMeans(list, g, w, o);
    case BlockNoBrace(list) => BlockMeans(list, g, w, o);
    case For(f) => LoopMean(f, g, w, o);
    case _ => SameEquiv(st, g, w, o);
  }

  lemma {:induction false} IfElseMean(c: Expr, thn: CStmt, els: CStmt, g: nat, w: World, o: Ops)
    requires Fine(IfWithElse(c, thn, els), g, w, o) && Blind(w) && LogicalNot(o)
    ensures var (st, h) := VisitParts(IfWithElse(c, thn, els), g);
            g <= h && Equiv(IfWithElse(c, thn, els), st, g, w, o)
    decreases Max(Level(thn), Level(els)), 2, 0
  {
    var h := Visit(thn, g).1;
    FineIfElse(c, thn, els, g, w, o);
    VisitMeans(thn, g, w, o);
    FineLater(els, g, h, w, o);
    VisitMeans(els, h, w, o);
    ArmsMean(c, thn, els, Visit(thn, g).0, Visit(els, h).0, g, h, w, o);
  }

  lemma {:induction false} LoopMean(f: ForStmt, g: nat, w: World, o: Ops)
    requires Fine(For(f), g, w, o) && Blind(w) && LogicalNot(o)
    ensures var (st, h) := VisitParts(For(f), g); g <= h && Equiv(For(f), st, g, w, o)
    decreases Level(f.body), 2, 0
  {
    FineParts(f, g, w, o);
    VisitMeans(f.body, g, w, o);
    LoopEquiv(f, Visit(f.body, g).0, g, w, o);
  }

  lemma {:induction false} FineIf(c: Expr, thn: CStmt, g: nat, w: World, o: Ops)
    requires Fine(If(c, thn), g, w, o)
    ensures Unused(Names(c), g) && Fine(thn, g, w, o)
  {
  }

  lemma {:induction false} FineIfElse(c: Expr, thn: CStmt, els: CStmt, g: nat, w: World, o: Ops)
    requires Fine(IfWithElse(c, thn, els), g, w, o)
    ensures Unused(Names(c), g) && Fine(thn, g, w, o) && Fine(els, g, w, o)
  {
  }

  lemma {:induction false} ArmsMean(c: Expr, a: CStmt, a': CStmt, b: CStmt, b': CStmt, g: nat, h: nat, w: World, o: Ops)
    requires Unused(Names(c), g) && Fine(a', g, w, o) && Blind(w) && g <= h
    requires Equiv(a, b, g, w, o) && Equiv(a', b', h, w, o)
    ensures Equiv(IfWithElse(c, a, a'), IfWithElse(c, b, b'), g, w, o)
  {
    EquivLower(a', b', g, h, w, o);
    IfElseEquiv(c, a, b, a', b', g, w, o);
  }

  lemma {:induction false} SameEquiv(st: CStmt, g: nat, w: World, o: Ops)
    requires Fine(st, g, w, o) && Blind(w)
    ensures Equiv(st, st, g, w, o)
  {
    Ignored(st, g, w, o);
  }

  lemma {:induction false} BlockMeans(list: seq<CStmt>, g: nat, w: World, o: Ops)
    requires Fine(Block(list), g, w, o) || Fine(BlockNoBrace(list), g, w, o)
    requires Blind(w) && LogicalNot(o)
    ensures var (b, h) := VisitList(list, g);
            g <= h && Equiv(Block(list), Block(b), g, w, o) && Equiv(BlockNoBrace(list), BlockNoBrace(b), g, w, o)
    decreases ListLevel(list), 2, 0
  {
    FineBlocks(list, g, w, o);
    ListMeans(list, g, w, o);
    BlockEquiv(list, VisitList(list, g).0, g, w, o);
  }

  lemma {:induction false} ListMeans(list: seq<CStmt>, g: nat, w: World, o: Ops)
    requires FineList(list, g, w, o) && Blind(w) && LogicalNot(o)
    ensures g <= VisitList(list, g).1 && ListEquiv(list, VisitList(list, g).0, g, w, o)
    decreases ListLevel(list), 1, |list|
  {
    if list != [] {
      var (x, h) := Visit(list[0], g);
      var tail := list[1..];
      VisitMeans(list[0], g, w, o);
      FineListLater(tail, g, h, w, o);
      ListMeans(tail, h, w, o);
      ListEquivLower(tail, VisitList(tail, h).0, g, h, w, o);
      ConsEquiv(list[0], x, tail, VisitList(tail, h).0, g, w, o);
      assert list == [list[0]] + tail;
    }
  }

  lemma {:induction false} FineListLater(list: seq<CStmt>, g: nat, h: nat, w: World, o: Ops)
    requires FineList(list, g, w, o) && g <= h
    ensures FineList(list, h, w, o)
  {
    forall k | 0 <= k < |list| ensures Fine(list[k], h, w, o) {
      FineLater(list[k], g, h, w, o);
    }
  }

  // ----- the traversal leaves nothing to rewrite -----

  ghost predicate PostSettled(post: Post) {
    post.PostExpr? ==> Settled1(post.e) && !PostHoists(post)
  }

  predicate PostHoists(post: Post) {
    post.PostExpr? && StmtHoists(post.e)
  }

  /** The statement's own expressions have nothing left to hoist, and it is no do loop. */
  ghost predicate Own(st: CStmt) {
    match st
    case Simple(x) => x.DeclStmt? || (x.ExprStmt? && Settled1(x.e))
    case Declare(_, e) => Settled1(e)
    case Return(e) => Residual(e)
    case If(c, _) => Residual(c)
    case IfWithElse(c, _, _) => Residual(c)
    case For(f) =>
      && (f.pre.Some? ==> Settled1(f.pre.value)) && (f.cond.Some? ==> Residual(f.cond.value)) && PostSettled(f.post)
    case Do(_, _) => false
    case _ => true
  }

  /** Nothing in the statement is left to rewrite. */
  ghost predicate Settled(st: CStmt)
    decreases st
  {
    Own(st) &&
    match st
    case If(_, thn) => Settled(thn)
    case IfWithElse(_, thn, els) => Settled(thn) && Settled(els)
    case Block(list) => forall k :: 0 <= k < |list| ==> Settled(list[k])
    case BlockNoBrace(list) => forall k :: 0 <= k < |list| ==> Settled(list[k])
    case For(f) => Settled(f.body)
    case _ => true
  }

  lemma {:induction false} Visit1Own(st: CStmt, g: nat)
    ensures Own(Visit1(st, g).0)
  {
    match st
    case Simple(x) =>
      match x {
        case ExprStmt(e) => HoistSettles(e, false, g);
        case DeclStmt(_) =>
        case IfElse(c, _, _) => HoistLeavesResidual(c, true, g);
      }
    case Declare(_, e) => HoistSettles(e, false, g);
    case Return(e) => HoistLeavesResidual(e, true, g);
    case If(c, thn) => IfOwn(c, thn, g);
    case IfWithElse(c, _, _) => HoistLeavesResidual(c, true, g);
    case For(f) => ForOwn(f, g);
    case Do(_, _) =>
    case _ =>
  }

  lemma {:induction false} IfOwn(c: Expr, thn: CStmt, g: nat)
    ensures Own(RewriteIf(c, thn, g).0)
  {
    FixLevel(false, Split(c), [], thn, g);
    var f := FixAndAnd(false, Split(c), [], thn, g);
    HoistLeavesResidual(Join(f.clauses), true, f.gen);
  }

  lemma {:induction false} ForOwn(f: ForStmt, g: nat)
    ensures Own(Visit1(For(f), g).0)
  {
    var n := RewriteTest(f, g);
    if n.before == [] {
      var fixed :=
        if f.cond.None? then Fixed([], f.body, g) else FixAndAnd(true, Split(f.cond.value), [], f.body, g);
      if f.pre.Some? {
        HoistSettles(f.pre.value, true, fixed.gen);
      }
      if f.cond.Some? {
        var hp := if f.pre.None? then fixed.gen else Hoist(f.pre.value, true, true, fixed.gen).gen;
        FixLevel(true, Split(f.cond.value), [], f.body, g);
        HoistLeavesResidual(Join(fixed.clauses), true, hp);
      }
      PostOwn(f.post, n.gen);
    }
  }

  lemma {:induction false} PostOwn(post: Post, g: nat)
    ensures PostSettled(RewritePost(post, g).0)
  {
    if post.PostExpr? {
      HoistSettles(post.e, false, g);
      SettledLevel(Hoist(post.e, true, false, g).e);
    }
  }

  /** After the traversal nothing is left to rewrite. */
  lemma {:induction false} VisitSettles(st: CStmt, g: nat)
    ensures Settled(Visit(st, g).0)
    decreases Level(st), 0, 0
  {
    LevelDrops(st, g);
    Visit1Own(st, g);
    PartsSettle(Visit1(st, g).0, Visit1(st, g).1);
  }

  lemma {:induction false} PartsSettle(st: CStmt, g: nat)
    requires Own(st)
    ensures Settled(VisitParts(st, g).0)
    decreases PartLevel(st), 2, 0
  {
    match st
    case If(_, thn) => VisitSettles(thn, g);
    case IfWithElse(_, thn, els) =>
      VisitSettles(thn, g);
      VisitSettles(els, Visit(thn, g).1);
    case Block(list) => ListSettles(list, g);
    case BlockNoBrace(list) => ListSettles(list, g);
    case For(f) => VisitSettles(f.body, g);
    case _ =>
  }

  lemma {:induction false} ListSettles(list: seq<CStmt>, g: nat)
    ensures forall k :: 0 <= k < |VisitList(list, g).0| ==> Settled(VisitList(list, g).0[k])
    decreases ListLevel(list), 1, |list|
  {
    if list != [] {
      var (x, h) := Visit(list[0], g);
      VisitSettles(list[0], g);
      ListSettles(list[1..], h);
      var rest := VisitList(list[1..], h).0;
      assert VisitList(list, g).0 == [x] + rest;
    }
  }
}
