/** The declarations of temporaries in what hoisting makes, and the scopes of Go. */
module Scopes {
  import opened Booleans
  import opened CTree
  import opened SideEffects

  /** An expression of C: no function literals, and nothing is declared in it. */
  predicate FromC(e: Expr) {
    match e
    case Number(_) => true
    case Var(_) => true
    case Unary(_, a) => FromC(a)
    case Paren(a) => FromC(a)
    case Binary(_, l, r) => FromC(l) && FromC(r)
    case AndAnd(l, r) => FromC(l) && FromC(r)
    case OrOr(l, r) => FromC(l) && FromC(r)
    case Cond(c, y, z) => FromC(c) && FromC(y) && FromC(z)
    case Assign(op, _, r) => op != ColonEq && FromC(r)
    case IncDec(_, _, _) => true
    case SideEffectFunc(_, _, _, _) => false
  }

  // ----- scopes -----

  /** The program's own variables are declared outside; a temporary has to be known. */
  predicate Visible(x: Name, known: set<Name>) {
    x.Tmp? ==> x in known
  }

  /** Every temporary is declared where it is mentioned, and := is no expression. A function
      literal opens a scope, which ends with it. */
  predicate ExprScoped(e: Expr, known: set<Name>)
    decreases e, 1
  {
    match e
    case Number(_) => true
    case Var(x) => Visible(x, known)
    case Unary(_, a) => ExprScoped(a, known)
    case Paren(a) => ExprScoped(a, known)
    case Binary(_, l, r) => ExprScoped(l, known) && ExprScoped(r, known)
    case AndAnd(l, r) => ExprScoped(l, known) && ExprScoped(r, known)
    case OrOr(l, r) => ExprScoped(l, known) && ExprScoped(r, known)
    case Cond(c, y, z) => ExprScoped(c, known) && ExprScoped(y, known) && ExprScoped(z, known)
    case Assign(op, x, r) => op != ColonEq && Visible(x, known) && ExprScoped(r, known)
    case IncDec(_, _, x) => Visible(x, known)
    case SideEffectFunc(_, block, value, after) =>
      && BlockScoped(block, known, {}) && ExprScoped(value, known + Declared(block))
      && BlockScoped(after, known + Declared(block), Declared(block))
  }

  /** Only temporaries are declared, each once in a scope; here are those of the scope. */
  predicate StmtScoped(st: Stmt, known: set<Name>, here: set<Name>)
    decreases st, 1
  {
    match st
    case ExprStmt(e) =>
      if e.Assign? && e.aop == ColonEq then e.x.Tmp? && e.x !in here && ExprScoped(e.r, known)
      else ExprScoped(e, known)
    case DeclStmt(x) => x.Tmp? && x !in here
    case IfElse(c, thn, els) => ExprScoped(c, known) && StmtScoped(thn, known, {}) && StmtScoped(els, known, {})
  }

  predicate BlockScoped(b: seq<Stmt>, known: set<Name>, here: set<Name>)
    decreases b, 0
  {
    b == [] ||
    (StmtScoped(b[0], known, here) && BlockScoped(b[1..], known + Declares(b[0]), here + Declares(b[0])))
  }

  /** What a statement adds to the scope it is in. */
  function Declares(st: Stmt): set<Name> {
    match st
    case ExprStmt(e) => if e.Assign? && e.aop == ColonEq then {e.x} else {}
    case DeclStmt(x) => {x}
    case IfElse(_, _, _) => {}
  }

  function Declared(b: seq<Stmt>): set<Name> {
    if b == [] then {} else Declares(b[0]) + Declared(b[1..])
  }

  // ----- how often a name is declared, and whether it is read -----

  function Declarations(e: Expr, t: Name): nat
    decreases e, 1
  {
    match e
    case Number(_) => 0
    case Var(_) => 0
    case Unary(_, a) => Declarations(a, t)
    case Paren(a) => Declarations(a, t)
    case Binary(_, l, r) => Declarations(l, t) + Declarations(r, t)
    case AndAnd(l, r) => Declarations(l, t) + Declarations(r, t)
    case OrOr(l, r) => Declarations(l, t) + Declarations(r, t)
    case Cond(c, y, z) => Declarations(c, t) + Declarations(y, t) + Declarations(z, t)
    case Assign(op, x, r) => (if op == ColonEq && x == t then 1 else 0) + Declarations(r, t)
    case IncDec(_, _, _) => 0
    case SideEffectFunc(_, block, value, after) =>
      BlockDeclarations(block, t) + Declarations(value, t) + BlockDeclarations(after, t)
  }

  function StmtDeclarations(st: Stmt, t: Name): nat
    decreases st, 1
  {
    match st
    case ExprStmt(e) => Declarations(e, t)
    case DeclStmt(x) => if x == t then 1 else 0
    case IfElse(c, thn, els) => Declarations(c, t) + StmtDeclarations(thn, t) + StmtDeclarations(els, t)
  }

  function BlockDeclarations(b: seq<Stmt>, t: Name): nat
    decreases b, 0
  {
    if b == [] then 0 else StmtDeclarations(b[0], t) + BlockDeclarations(b[1..], t)
  }

  /** The variable t is read; assigning or counting it is no use of it. */
  predicate Reads(e: Expr, t: Name)
    decreases e, 1
  {
    match e
    case Number(_) => false
    case Var(x) => x == t
    case Unary(_, a) => Reads(a, t)
    case Paren(a) => Reads(a, t)
    case Binary(_, l, r) => Reads(l, t) || Reads(r, t)
    case AndAnd(l, r) => Reads(l, t) || Reads(r, t)
    case OrOr(l, r) => Reads(l, t) || Reads(r, t)
    case Cond(c, y, z) => Reads(c, t) || Reads(y, t) || Reads(z, t)
    case Assign(_, _, r) => Reads(r, t)
    case IncDec(_, _, _) => false
    case SideEffectFunc(_, block, value, after) => BlockReads(block, t) || Reads(value, t) || BlockReads(after, t)
  }

  predicate StmtReads(st: Stmt, t: Name)
    decreases st, 1
  {
    match st
    case ExprStmt(e) => Reads(e, t)
    case DeclStmt(_) => false
    case IfElse(c, thn, els) => Reads(c, t) || StmtReads(thn, t) || StmtReads(els, t)
  }

  predicate BlockReads(b: seq<Stmt>, t: Name)
    decreases b, 0
  {
    b != [] && (StmtReads(b[0], t) || BlockReads(b[1..], t))
  }

  /** What Go wants of the temporaries numbered g and up in h.before, h.e and h.after: every
      mention in the scope of a declaration before it, none declared twice or left unread. */
  ghost predicate Proper(h: Hoisted, known: set<Name>, g: nat) {
    && BlockScoped(h.before, known, known)
    && ExprScoped(h.e, known + Declared(h.before))
    && BlockScoped(h.after, known + Declared(h.before), known + Declared(h.before))
    && (forall t: Name :: Occurrences(h, t) == if t in Temps(g, h.gen) then 1 else 0)
    && (forall t: Name :: t in Temps(g, h.gen) ==> Used(h, t))
  }

  function Occurrences(h: Hoisted, t: Name): nat {
    BlockDeclarations(h.before, t) + Declarations(h.e, t) + BlockDeclarations(h.after, t)
  }

  predicate Used(h: Hoisted, t: Name) {
    BlockReads(h.before, t) || Reads(h.e, t) || BlockReads(h.after, t)
  }

  // ----- every mention is in scope -----

  lemma {:induction false} WiderScope(e: Expr, a: set<Name>, b: set<Name>)
    requires ExprScoped(e, a) && a <= b
    ensures ExprScoped(e, b)
    decreases e, 1
  {
    match e
    case Number(_) =>
    case Var(_) =>
    case Unary(_, x) => WiderScope(x, a, b);
    case Paren(x) => WiderScope(x, a, b);
    case Binary(_, l, r) => WiderScope(l, a, b); WiderScope(r, a, b);
    case AndAnd(l, r) => WiderScope(l, a, b); WiderScope(r, a, b);
    case OrOr(l, r) => WiderScope(l, a, b); WiderScope(r, a, b);
    case Cond(c, y, z) => WiderScope(c, a, b); WiderScope(y, a, b); WiderScope(z, a, b);
    case Assign(_, _, r) => WiderScope(r, a, b);
    case IncDec(_, _, _) =>
    case SideEffectFunc(_, block, value, after) =>
      var d := Declared(block);
      WiderBlock(block, a, b, {}, {});
      WiderScope(value, a + d, b + d);
      WiderBlock(after, a + d, b + d, d, d);
  }

  lemma {:induction false} WiderStmt(st: Stmt, a: set<Name>, b: set<Name>, here: set<Name>, fewer: set<Name>)
    requires StmtScoped(st, a, here) && a <= b && fewer <= here
    ensures StmtScoped(st, b, fewer)
    decreases st, 1
  {
    match st
    case ExprStmt(e) =>
      if e.Assign? && e.aop == ColonEq {
        WiderScope(e.r, a, b);
      } else {
        WiderScope(e, a, b);
      }
    case DeclStmt(_) =>
    case IfElse(c, thn, els) =>
      WiderScope(c, a, b);
      WiderStmt(thn, a, b, {}, {});
      WiderStmt(els, a, b, {}, {});
  }

  /** More may be known, and less declared in the scope itself. */
  lemma {:induction false} WiderBlock(b: seq<Stmt>, k: set<Name>, l: set<Name>, here: set<Name>, fewer: set<Name>)
    requires BlockScoped(b, k, here) && k <= l && fewer <= here
    ensures BlockScoped(b, l, fewer)
    decreases b, 0
  {
    if b != [] {
      var d := Declares(b[0]);
      WiderStmt(b[0], k, l, here, fewer);
      WiderBlock(b[1..], k + d, l + d, here + d, fewer + d);
    }
  }

  /** A block that declares nothing does not mind what its scope has. */
  lemma {:induction false} NothingDeclared(b: seq<Stmt>, known: set<Name>, here: set<Name>)
    requires BlockScoped(b, known, {}) && Declared(b) == {}
    ensures BlockScoped(b, known, here)
  {
    if b != [] {
      assert Declares(b[0]) == {};
      assert known + {} == known && here + {} == here;
      NothingDeclared(b[1..], known, here);
    }
  }

  lemma {:induction false} ScopedAppend(a: seq<Stmt>, b: seq<Stmt>, known: set<Name>, here: set<Name>)
    ensures Declared(a + b) == Declared(a) + Declared(b)
    ensures BlockScoped(a + b, known, here) <==>
            BlockScoped(a, known, here) && BlockScoped(b, known + Declared(a), here + Declared(a))
  {
    if a == [] {
      assert a + b == b && known + {} == known && here + {} == here;
    } else {
      var d := Declares(a[0]);
      ScopedAppend(a[1..], b, known + d, here + d);
      assert (a + b)[1..] == a[1..] + b;
      assert known + d + Declared(a[1..]) == known + Declared(a);
      assert here + d + Declared(a[1..]) == here + Declared(a);
    }
  }

  lemma {:induction false} ScopedOne(st: Stmt, known: set<Name>, here: set<Name>)
    ensures Declared([st]) == Declares(st)
    ensures BlockScoped([st], known, here) <==> StmtScoped(st, known, here)
  {
    assert [st][1..] == [];
  }

  /** The pieces of an expression, where only the names in known are visible yet: what is moved
      behind it declares nothing. */
  ghost predicate Fits(h: Hoisted, known: set<Name>, g: nat) {
    && g <= h.gen && Declared(h.before) <= Temps(g, h.gen) && Declared(h.after) == {}
    && BlockScoped(h.before, known, known) && ExprScoped(h.e, known + Declared(h.before))
    && BlockScoped(h.after, known + Declared(h.before), {})
  }

  lemma {:induction false} StillUnused(known: set<Name>, d: set<Name>, g: nat, h: nat)
    requires Unused(known, g) && d <= Temps(g, h) && g <= h
    ensures Unused(known + d, h)
  {
  }

  lemma {:induction false} FitsTogether(hl: Hoisted, hr: Hoisted, op: BinOp, g: nat, known: set<Name>)
    requires Fits(hl, known, g) && Fits(hr, known + Declared(hl.before), hl.gen)
    ensures Fits(Hoisted(Binary(op, hl.e, hr.e), hl.before + hr.before, hl.after + hr.after, hr.gen), known, g)
  {
    var d1, d2 := Declared(hl.before), Declared(hr.before);
    var k, l := known + d1, known + d1 + d2;
    ScopedAppend(hl.before, hr.before, known, known);
    assert known + Declared(hl.before + hr.before) == l;
    TempsGrow(g, hl.gen, hr.gen);
    WiderScope(hl.e, k, l);
    ScopedAppend(hl.after, hr.after, l, {});
    WiderBlock(hl.after, k, l, {}, {});
    assert l + {} == l;
  }

  /** A conditionally evaluated operand, with what has to move in a scope of its own. */
  lemma {:induction false} WrappedFits(text: string, h: Hoisted, g: nat, known: set<Name>)
    requires Fits(h, known, g)
    ensures ExprScoped(Wrapped(text, h), known)
  {
    var d := Declared(h.before);
    if h.before == [] && h.after == [] {
      assert known + d == known;
    } else {
      WiderBlock(h.before, known, known, known, {});
      NothingDeclared(h.after, known + d, d);
    }
  }

  lemma {:induction false} ShortFits(x: Expr, l: Expr, r: Expr, stmt: bool, noAfter: bool, g: nat, known: set<Name>)
    requires (x == AndAnd(l, r) || x == OrOr(l, r)) && FromC(x) && ExprScoped(x, known) && Unused(known, g)
    ensures Fits(Hoist(x, stmt, noAfter, g), known, g)
    decreases x, 0
  {
    var hl := Hoist(l, false, true, g);
    var hr := Hoist(r, false, false, hl.gen);
    var k := known + Declared(hl.before);
    HoistFits(l, false, true, g, known);
    StillUnused(known, Declared(hl.before), g, hl.gen);
    WiderScope(r, known, k);
    HoistFits(r, false, false, hl.gen, k);
    WrappedFits("bool", hr, hl.gen, k);
    TempsGrow(g, hl.gen, hr.gen);
  }

  lemma {:induction false} CondFits(hc: Hoisted, hy: Hoisted, hz: Hoisted, g: nat, known: set<Name>)
    requires Unused(known, g) && Fits(hc, known, g) && hc.gen <= hy.gen <= hz.gen
    requires var k := known + Declared(hc.before); Fits(hy, k, hc.gen) && Fits(hz, k, hy.gen)
    ensures Fits(HoistedCond(hc, hy, hz), known, g)
  {
    var k, t := known + Declared(hc.before), Tmp(hz.gen);
    var y, z := Wrapped("unknown", hy), Wrapped("unknown", hz);
    WrappedFits("unknown", hy, hc.gen, k);
    WrappedFits("unknown", hz, hy.gen, k);
    StillUnused(known, Declared(hc.before), g, hc.gen);
    ChoiceFits(t, hc.e, y, z, k, k);
    ScopedAppend(hc.before, [DeclStmt(t), Choice(t, hc.e, y, z)], known, known);
    TempsGrow(g, hc.gen, hz.gen + 1);
    TempsGrow(g, hz.gen, hz.gen + 1);
    assert known + (Declared(hc.before) + {t}) == k + {t};
    WiderBlock(hc.after, k, k + {t}, {}, {});
  }

  lemma {:induction false} ChoiceFits(t: Name, c: Expr, y: Expr, z: Expr, known: set<Name>, here: set<Name>)
    requires t.Tmp? && t !in here
    requires ExprScoped(c, known) && ExprScoped(y, known) && ExprScoped(z, known)
    ensures BlockScoped([DeclStmt(t), Choice(t, c, y, z)], known, here)
    ensures Declared([DeclStmt(t), Choice(t, c, y, z)]) == {t}
  {
    var k := known + {t};
    WiderScope(c, known, k);
    WiderScope(y, known, k);
    WiderScope(z, known, k);
    assert StmtScoped(ExprStmt(Assign(Set, t, y)), k, {}) && StmtScoped(ExprStmt(Assign(Set, t, z)), k, {});
    ScopedOne(DeclStmt(t), known, here);
    ScopedOne(Choice(t, c, y, z), k, here + {t});
    ScopedAppend([DeclStmt(t)], [Choice(t, c, y, z)], known, here);
    assert [DeclStmt(t)] + [Choice(t, c, y, z)] == [DeclStmt(t), Choice(t, c, y, z)];
  }

  lemma {:induction false} AssignFits(op: AssignOp, v: Name, h: Hoisted, g: nat, known: set<Name>)
    requires op != ColonEq && Visible(v, known) && Fits(h, known, g)
    ensures Fits(h.(e := Assign(op, v, h.e)), known, g)
    ensures Fits(h.(e := Var(v), before := h.before + [ExprStmt(Assign(op, v, h.e))]), known, g)
  {
    var a, d := ExprStmt(Assign(op, v, h.e)), Declared(h.before);
    ScopedOne(a, known + d, known + d);
    ScopedAppend(h.before, [a], known, known);
    assert d + {} == d;
  }

  lemma {:induction false} StepFits(prefix: bool, inc: bool, v: Name, stmt: bool, noAfter: bool, g: nat,
                                    known: set<Name>)
    requires Visible(v, known) && Unused(known, g)
    ensures Fits(Hoist(IncDec(prefix, inc, v), stmt, noAfter, g), known, g)
  {
    var save, step := ExprStmt(Assign(ColonEq, Tmp(g), Var(v))), ExprStmt(IncDec(false, inc, v));
    assert forall k, here :: known <= k ==> StmtScoped(step, k, here);
    ScopedOne(step, known, {});
    ScopedOne(step, known, known);
    ScopedOne(save, known, known);
    ScopedOne(step, known + {Tmp(g)}, known + {Tmp(g)});
    ScopedAppend([save], [step], known, known);
    assert [save] + [step] == [save, step];
    assert known + {} == known;
    TempsGrow(g, g, g + 1);
  }

  /** Main result for scopes. */
  lemma {:induction false} HoistFits(x: Expr, stmt: bool, noAfter: bool, g: nat, known: set<Name>)
    requires FromC(x) && ExprScoped(x, known) && Unused(known, g)
    ensures Fits(Hoist(x, stmt, noAfter, g), known, g)
    decreases x, 1
  {
    match x
    case Number(_) => assert known + {} == known;
    case Var(_) => assert known + {} == known;
    case Unary(_, a) => HoistFits(a, false, noAfter, g, known);
    case Paren(a) => HoistFits(a, false, noAfter, g, known);
    case Binary(op, l, r) =>
      var hl := Hoist(l, false, noAfter, g);
      var k := known + Declared(hl.before);
      HoistFits(l, false, noAfter, g, known);
      StillUnused(known, Declared(hl.before), g, hl.gen);
      WiderScope(r, known, k);
      HoistFits(r, false, noAfter, hl.gen, k);
      FitsTogether(hl, Hoist(r, false, noAfter, hl.gen), op, g, known);
    case AndAnd(l, r) => ShortFits(x, l, r, stmt, noAfter, g, known);
    case OrOr(l, r) => ShortFits(x, l, r, stmt, noAfter, g, known);
    case Cond(c, y, z) =>
      var hc := Hoist(c, false, true, g);
      var hy := Hoist(y, false, false, hc.gen);
      var k := known + Declared(hc.before);
      HoistFits(c, false, true, g, known);
      StillUnused(known, Declared(hc.before), g, hc.gen);
      WiderScope(y, known, k);
      WiderScope(z, known, k);
      HoistFits(y, false, false, hc.gen, k);
      GenGrows(y, false, false, hc.gen);
      HoistFits(z, false, false, hy.gen, k);
      CondFits(hc, hy, Hoist(z, false, false, hy.gen), g, known);
    case Assign(op, v, r) =>
      var h := Hoist(r, false, noAfter, g);
      HoistFits(r, false, noAfter, g, known);
      AssignFits(op, v, h, g, known);
    case IncDec(prefix, inc, v) => StepFits(prefix, inc, v, stmt, noAfter, g, known);
  }

  // ----- each temporary is declared once, and read -----

  lemma {:induction false} DeclarationsAppend(a: seq<Stmt>, b: seq<Stmt>, t: Name)
    ensures BlockDeclarations(a + b, t) == BlockDeclarations(a, t) + BlockDeclarations(b, t)
    ensures BlockReads(a + b, t) <==> BlockReads(a, t) || BlockReads(b, t)
  {
    if a == [] {
      assert a + b == b;
    } else {
      DeclarationsAppend(a[1..], b, t);
      assert (a + b)[1..] == a[1..] + b;
    }
  }

  lemma {:induction false} DeclarationsOne(st: Stmt, t: Name)
    ensures BlockDeclarations([st], t) == StmtDeclarations(st, t)
    ensures BlockReads([st], t) == StmtReads(st, t)
  {
    assert [st][1..] == [];
  }

  /** In C nothing is declared. */
  lemma {:induction false} CDeclaresNothing(x: Expr, t: Name)
    requires FromC(x)
    ensures Declarations(x, t) == 0
  {
    match x
    case Number(_) =>
    case Var(_) =>
    case Unary(_, a) => CDeclaresNothing(a, t);
    case Paren(a) => CDeclaresNothing(a, t);
    case Binary(_, l, r) => CDeclaresNothing(l, t); CDeclaresNothing(r, t);
    case AndAnd(l, r) => CDeclaresNothing(l, t); CDeclaresNothing(r, t);
    case OrOr(l, r) => CDeclaresNothing(l, t); CDeclaresNothing(r, t);
    case Cond(c, y, z) => CDeclaresNothing(c, t); CDeclaresNothing(y, t); CDeclaresNothing(z, t);
    case Assign(_, _, r) => CDeclaresNothing(r, t);
    case IncDec(_, _, _) =>
  }

  /** Exactly the temporaries from g to h.gen are declared, each once, and those are read. */
  predicate Once(h: Hoisted, g: nat, t: Name) {
    && g <= h.gen
    && Occurrences(h, t) == (if t.Tmp? && g <= t.n < h.gen then 1 else 0)
    && (t.Tmp? && g <= t.n < h.gen ==> Used(h, t))
  }

  /** Main result for declarations. */
  lemma {:induction false} HoistOnce(x: Expr, stmt: bool, noAfter: bool, g: nat, t: Name)
    requires FromC(x)
    ensures Once(Hoist(x, stmt, noAfter, g), g, t)
    decreases x, 1
  {
    match x
    case Number(_) =>
    case Var(_) =>
    case Unary(_, a) => HoistOnce(a, false, noAfter, g, t);
    case Paren(a) => HoistOnce(a, false, noAfter, g, t);
    case Binary(op, l, r) =>
      var hl := Hoist(l, false, noAfter, g);
      var hr := Hoist(r, false, noAfter, hl.gen);
      HoistOnce(l, false, noAfter, g, t);
      HoistOnce(r, false, noAfter, hl.gen, t);
      OnceTogether(hl, hr, op, g, t);
    case AndAnd(l, r) => ShortOnce(x, l, r, stmt, noAfter, g, t);
    case OrOr(l, r) => ShortOnce(x, l, r, stmt, noAfter, g, t);
    case Cond(c, y, z) =>
      var hc := Hoist(c, false, true, g);
      var hy := Hoist(y, false, false, hc.gen);
      HoistOnce(c, false, true, g, t);
      HoistOnce(y, false, false, hc.gen, t);
      HoistOnce(z, false, false, hy.gen, t);
      CondOnce(hc, hy, Hoist(z, false, false, hy.gen), g, t);
    case Assign(op, v, r) =>
      var h := Hoist(r, false, noAfter, g);
      HoistOnce(r, false, noAfter, g, t);
      AssignOnce(op, v, h, g, t);
    case IncDec(_, inc, v) => StepOnce(inc, v, g, t);
  }

  lemma {:induction false} OnceTogether(hl: Hoisted, hr: Hoisted, op: BinOp, g: nat, t: Name)
    requires Once(hl, g, t) && Once(hr, hl.gen, t)
    ensures Once(Hoisted(Binary(op, hl.e, hr.e), hl.before + hr.before, hl.after + hr.after, hr.gen), g, t)
  {
    DeclarationsAppend(hl.before, hr.before, t);
    DeclarationsAppend(hl.after, hr.after, t);
  }

  lemma {:induction false} AssignOnce(op: AssignOp, v: Name, h: Hoisted, g: nat, t: Name)
    requires op != ColonEq && Once(h, g, t)
    ensures Once(h.(e := Assign(op, v, h.e)), g, t)
    ensures Once(h.(e := Var(v), before := h.before + [ExprStmt(Assign(op, v, h.e))]), g, t)
  {
    var a := ExprStmt(Assign(op, v, h.e));
    DeclarationsOne(a, t);
    DeclarationsAppend(h.before, [a], t);
  }

  lemma {:induction false} WrappedOnce(text: string, h: Hoisted, t: Name)
    ensures Declarations(Wrapped(text, h), t) == Occurrences(h, t)
    ensures Reads(Wrapped(text, h), t) <==> Used(h, t)
  {
  }

  lemma {:induction false} ShortOnce(x: Expr, l: Expr, r: Expr, stmt: bool, noAfter: bool, g: nat, t: Name)
    requires (x == AndAnd(l, r) || x == OrOr(l, r)) && FromC(x)
    ensures Once(Hoist(x, stmt, noAfter, g), g, t)
    decreases x, 0
  {
    var hl := Hoist(l, false, true, g);
    HoistOnce(l, false, true, g, t);
    HoistOnce(r, false, false, hl.gen, t);
    WrappedOnce("bool", Hoist(r, false, false, hl.gen), t);
  }

  lemma {:induction false} CondOnce(hc: Hoisted, hy: Hoisted, hz: Hoisted, g: nat, t: Name)
    requires Once(hc, g, t) && Once(hy, hc.gen, t) && Once(hz, hy.gen, t)
    ensures Once(HoistedCond(hc, hy, hz), g, t)
  {
    var y, z, v := Wrapped("unknown", hy), Wrapped("unknown", hz), Tmp(hz.gen);
    WrappedOnce("unknown", hy, t);
    WrappedOnce("unknown", hz, t);
    assert StmtDeclarations(ExprStmt(Assign(Set, v, y)), t) == Declarations(y, t);
    assert StmtDeclarations(ExprStmt(Assign(Set, v, z)), t) == Declarations(z, t);
    assert StmtReads(ExprStmt(Assign(Set, v, y)), t) == Reads(y, t);
    assert StmtReads(ExprStmt(Assign(Set, v, z)), t) == Reads(z, t);
    DeclarationsOne(DeclStmt(v), t);
    DeclarationsOne(Choice(v, hc.e, y, z), t);
    DeclarationsAppend([DeclStmt(v)], [Choice(v, hc.e, y, z)], t);
    assert [DeclStmt(v)] + [Choice(v, hc.e, y, z)] == [DeclStmt(v), Choice(v, hc.e, y, z)];
    DeclarationsAppend(hc.before, [DeclStmt(v), Choice(v, hc.e, y, z)], t);
  }

  lemma {:induction false} StepOnce(inc: bool, v: Name, g: nat, t: Name)
    ensures var save, step := ExprStmt(Assign(ColonEq, Tmp(g), Var(v))), ExprStmt(IncDec(false, inc, v));
            && BlockDeclarations([step], t) == 0
            && BlockDeclarations([save, step], t) == if t == Tmp(g) then 1 else 0
  {
    var save, step := ExprStmt(Assign(ColonEq, Tmp(g), Var(v))), ExprStmt(IncDec(false, inc, v));
    DeclarationsOne(step, t);
    DeclarationsOne(save, t);
    DeclarationsAppend([save], [step], t);
    assert [save] + [step] == [save, step];
    assert Declarations(Var(v), t) == 0;
  }

  /** Main result: Go accepts every declaration, mention and use of the temporaries in what is
      made of a C expression. */
  lemma {:induction false} HoistProper(x: Expr, stmt: bool, noAfter: bool, g: nat, known: set<Name>)
    requires FromC(x) && ExprScoped(x, known) && Unused(known, g)
    ensures Proper(Hoist(x, stmt, noAfter, g), known, g)
  {
    var h := Hoist(x, stmt, noAfter, g);
    HoistFits(x, stmt, noAfter, g, known);
    NothingDeclared(h.after, known + Declared(h.before), known + Declared(h.before));
    forall t: Name
      ensures Occurrences(h, t) == if t in Temps(g, h.gen) then 1 else 0
      ensures t in Temps(g, h.gen) ==> Used(h, t)
    {
      HoistOnce(x, stmt, noAfter, g, t);
      assert t in Temps(g, h.gen) <==> t.Tmp? && g <= t.n < h.gen;
    }
  }

  // ----- fixing conditions changes none of that -----

  lemma {:induction false} OperandScope(x: Expr, a: Expr, ptr: Name -> bool, known: set<Name>)
    ensures ExprScoped(FixedOperand(x, a, ptr), known) == ExprScoped(a, known)
  {
    assert ExprScoped(Nothing(if x.Paren? then x.e else x, ptr), known);
  }

  lemma {:induction false} OperandOnce(x: Expr, a: Expr, ptr: Name -> bool, t: Name)
    ensures Declarations(FixedOperand(x, a, ptr), t) == Declarations(a, t)
    ensures t.Tmp? ==> Reads(FixedOperand(x, a, ptr), t) == Reads(a, t)
  {
    var zero := Nothing(if x.Paren? then x.e else x, ptr);
    assert Declarations(zero, t) == 0 && (t.Tmp? ==> !Reads(zero, t));
  }

  lemma {:induction false} FixedScope(e: Expr, ptr: Name -> bool, known: set<Name>)
    ensures ExprScoped(FixAll(e, ptr), known) == ExprScoped(e, known)
    decreases e, 1
  {
    match e
    case Number(_) =>
    case Var(_) =>
    case Unary(_, a) => FixedScope(a, ptr, known); OperandScope(a, FixAll(a, ptr), ptr, known);
    case Binary(_, l, r) => FixedScope(l, ptr, known); FixedScope(r, ptr, known);
    case Paren(a) => FixedScope(a, ptr, known);
    case AndAnd(l, r) => FixedOperandScope(l, ptr, known); FixedOperandScope(r, ptr, known);
    case OrOr(l, r) => FixedOperandScope(l, ptr, known); FixedOperandScope(r, ptr, known);
    case Cond(c, y, z) => FixedScope(c, ptr, known); FixedScope(y, ptr, known); FixedScope(z, ptr, known);
    case Assign(_, _, r) => FixedScope(r, ptr, known);
    case IncDec(_, _, _) =>
    case SideEffectFunc(_, block, value, after) =>
      var k := known + Declared(block);
      FixedBlockScope(block, ptr, known, {});
      FixedScope(value, ptr, k);
      FixedBlockScope(after, ptr, k, Declared(block));
  }

  lemma {:induction false} FixedOperandScope(x: Expr, ptr: Name -> bool, known: set<Name>)
    ensures ExprScoped(FixedOperand(x, FixAll(x, ptr), ptr), known) == ExprScoped(x, known)
    decreases x, 2
  {
    FixedScope(x, ptr, known);
    OperandScope(x, FixAll(x, ptr), ptr, known);
  }

  lemma {:induction false} FixedStmtScope(st: Stmt, ptr: Name -> bool, known: set<Name>, here: set<Name>)
    ensures Declares(FixStmt(st, ptr)) == Declares(st)
    ensures StmtScoped(FixStmt(st, ptr), known, here) == StmtScoped(st, known, here)
    decreases st, 1
  {
    match st
    case ExprStmt(e) =>
      FixedScope(e, ptr, known);
      if e.Assign? {
        FixedScope(e.r, ptr, known);
      }
    case DeclStmt(_) =>
    case IfElse(c, thn, els) =>
      FixedOperandScope(c, ptr, known);
      FixedStmtScope(thn, ptr, known, {});
      FixedStmtScope(els, ptr, known, {});
  }

  lemma {:induction false} FixedBlockScope(b: seq<Stmt>, ptr: Name -> bool, known: set<Name>, here: set<Name>)
    ensures Declared(FixBlock(b, ptr)) == Declared(b)
    ensures BlockScoped(FixBlock(b, ptr), known, here) == BlockScoped(b, known, here)
    decreases b, 0
  {
    if b != [] {
      FixedStmtScope(b[0], ptr, known, here);
      FixedBlockScope(b[1..], ptr, known + Declares(b[0]), here + Declares(b[0]));
      assert FixBlock(b, ptr)[1..] == FixBlock(b[1..], ptr);
    }
  }

  lemma {:induction false} FixedOnce(e: Expr, ptr: Name -> bool, t: Name)
    ensures Declarations(FixAll(e, ptr), t) == Declarations(e, t)
    ensures t.Tmp? ==> Reads(FixAll(e, ptr), t) == Reads(e, t)
    decreases e, 1
  {
    match e
    case Number(_) =>
    case Var(_) =>
    case Unary(_, a) => FixedOnce(a, ptr, t); OperandOnce(a, FixAll(a, ptr), ptr, t);
    case Binary(_, l, r) => FixedOnce(l, ptr, t); FixedOnce(r, ptr, t);
    case Paren(a) => FixedOnce(a, ptr, t);
    case AndAnd(l, r) => FixedBothOnce(e, l, r, ptr, t);
    case OrOr(l, r) => FixedBothOnce(e, l, r, ptr, t);
    case Cond(c, y, z) => FixedOnce(c, ptr, t); FixedOnce(y, ptr, t); FixedOnce(z, ptr, t);
    case Assign(_, _, r) => FixedOnce(r, ptr, t);
    case IncDec(_, _, _) =>
    case SideEffectFunc(_, _, _, _) => FixedLiteralOnce(e, ptr, t);
  }

  lemma {:induction false} FixedBothOnce(e: Expr, l: Expr, r: Expr, ptr: Name -> bool, t: Name)
    requires e == AndAnd(l, r) || e == OrOr(l, r)
    ensures Declarations(FixAll(e, ptr), t) == Declarations(e, t)
    ensures t.Tmp? ==> Reads(FixAll(e, ptr), t) == Reads(e, t)
    decreases e, 0
  {
    FixedOperandOnce(l, ptr, t);
    FixedOperandOnce(r, ptr, t);
  }

  lemma {:induction false} FixedLiteralOnce(e: Expr, ptr: Name -> bool, t: Name)
    requires e.SideEffectFunc?
    ensures Declarations(FixAll(e, ptr), t) == Declarations(e, t)
    ensures t.Tmp? ==> Reads(FixAll(e, ptr), t) == Reads(e, t)
    decreases e, 0
  {
    FixedBlockOnce(e.block, ptr, t);
    FixedOnce(e.value, ptr, t);
    FixedBlockOnce(e.after, ptr, t);
  }

  lemma {:induction false} FixedOperandOnce(x: Expr, ptr: Name -> bool, t: Name)
    ensures Declarations(FixedOperand(x, FixAll(x, ptr), ptr), t) == Declarations(x, t)
    ensures t.Tmp? ==> Reads(FixedOperand(x, FixAll(x, ptr), ptr), t) == Reads(x, t)
    decreases x, 2
  {
    FixedOnce(x, ptr, t);
    OperandOnce(x, FixAll(x, ptr), ptr, t);
  }

  lemma {:induction false} FixedStmtOnce(st: Stmt, ptr: Name -> bool, t: Name)
    ensures StmtDeclarations(FixStmt(st, ptr), t) == StmtDeclarations(st, t)
    ensures t.Tmp? ==> StmtReads(FixStmt(st, ptr), t) == StmtReads(st, t)
    decreases st, 1
  {
    match st
    case ExprStmt(e) => FixedOnce(e, ptr, t);
    case DeclStmt(_) =>
    case IfElse(c, thn, els) =>
      FixedOperandOnce(c, ptr, t);
      FixedStmtOnce(thn, ptr, t);
      FixedStmtOnce(els, ptr, t);
  }

  lemma {:induction false} FixedBlockOnce(b: seq<Stmt>, ptr: Name -> bool, t: Name)
    ensures BlockDeclarations(FixBlock(b, ptr), t) == BlockDeclarations(b, t)
    ensures t.Tmp? ==> BlockReads(FixBlock(b, ptr), t) == BlockReads(b, t)
    decreases b, 0
  {
    if b != [] {
      FixedStmtOnce(b[0], ptr, t);
      FixedBlockOnce(b[1..], ptr, t);
      assert FixBlock(b, ptr)[1..] == FixBlock(b[1..], ptr);
    }
  }

  function FixedPieces(h: Hoisted, ptr: Name -> bool): Hoisted {
    Hoisted(FixAll(h.e, ptr), FixBlock(h.before, ptr), FixBlock(h.after, ptr), h.gen)
  }

  lemma {:induction false} FixedProper(h: Hoisted, ptr: Name -> bool, known: set<Name>, g: nat)
    requires Proper(h, known, g)
    ensures Proper(FixedPieces(h, ptr), known, g)
  {
    var k := known + Declared(h.before);
    FixedBlockScope(h.before, ptr, known, known);
    FixedScope(h.e, ptr, k);
    FixedBlockScope(h.after, ptr, k, k);
    var f := FixedPieces(h, ptr);
    forall t: Name
      ensures Occurrences(f, t) == if t in Temps(g, h.gen) then 1 else 0
      ensures t in Temps(g, h.gen) ==> Used(f, t)
    {
      FixedBlockOnce(h.before, ptr, t);
      FixedOnce(h.e, ptr, t);
      FixedBlockOnce(h.after, ptr, t);
      assert t in Temps(g, h.gen) ==> Used(h, t);
    }
  }
}
