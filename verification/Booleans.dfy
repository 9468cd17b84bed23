/** Making conditions boolean, and simplifying their negations. */
module Booleans {
  import opened CTree

  // ----- conditions that Go accepts as booleans -----

  predicate Comparison(op: BinOp) {
    op in {EqEq, NotEq, Lt, LtEq, Gt, GtEq}
  }

  predicate NeedFixBool(x: Expr) {
    match x
    case SideEffectFunc(text, _, _, _) => text != "bool"
    case Binary(op, _, _) => !Comparison(op)
    case Unary(op, _) => op != Not
    case AndAnd(_, _) => false
    case OrOr(_, _) => false
    case Paren(a) => NeedFixBool(a)
    case _ => true
  }

  const NIL := User("nil")

  /** What x is compared with: nil for a variable declared as a pointer. */
  function Nothing(x: Expr, ptr: Name -> bool): Expr {
    if x.Var? && ptr(x.x) then Var(NIL) else Number(0)
  }

  /** x becomes x != 0, without the parentheses around x. */
  function FixBool(x: Expr, ptr: Name -> bool): Expr {
    if !NeedFixBool(x) then x
    else
      var y := if x.Paren? then x.e else x;
      Binary(NotEq, y, Nothing(y, ptr))
  }

  /** A variable, in at most one pair of parentheses, that is declared as a pointer. */
  predicate IsPointer(x: Expr, ptr: Name -> bool) {
    (x.Var? && ptr(x.x)) || (x.Paren? && x.e.Var? && ptr(x.e.x))
  }

  /** Exactly what is no comparison, negation, && or || is compared, with nil exactly when it is
      a pointer. */
  lemma {:induction false} FixBoolCompares(x: Expr, ptr: Name -> bool)
    ensures !NeedFixBool(FixBool(x, ptr))
    ensures var y := FixBool(x, ptr);
            if !NeedFixBool(x) then y == x
            else y.Binary? && y.bop == NotEq && (if x.Paren? then x == Paren(y.l) else x == y.l)
                 && y.r == if IsPointer(x, ptr) then Var(NIL) else Number(0)
  {
  }

  /** The operands of &&, || and ! are made boolean, from the outside in. */
  function FixAll(e: Expr, ptr: Name -> bool): Expr
    decreases e, 1
  {
    match e
    case Number(_) => e
    case Var(_) => e
    case Unary(op, a) => Unary(op, if op == Not then FixedOperand(a, FixAll(a, ptr), ptr) else FixAll(a, ptr))
    case Binary(op, l, r) => Binary(op, FixAll(l, ptr), FixAll(r, ptr))
    case Paren(a) => Paren(FixAll(a, ptr))
    case AndAnd(l, r) => AndAnd(FixedOperand(l, FixAll(l, ptr), ptr), FixedOperand(r, FixAll(r, ptr), ptr))
    case OrOr(l, r) => OrOr(FixedOperand(l, FixAll(l, ptr), ptr), FixedOperand(r, FixAll(r, ptr), ptr))
    case Cond(c, y, z) => Cond(FixAll(c, ptr), FixAll(y, ptr), FixAll(z, ptr))
    case Assign(op, x, r) => Assign(op, x, FixAll(r, ptr))
    case IncDec(_, _, _) => e
    case SideEffectFunc(text, block, value, after) =>
      SideEffectFunc(text, FixBlock(block, ptr), FixAll(value, ptr), FixBlock(after, ptr))
  }

  /** The operand x, fixed and then visited in turn; a is what visiting x itself gives. */
  function FixedOperand(x: Expr, a: Expr, ptr: Name -> bool): Expr {
    if !NeedFixBool(x) then a
    else Binary(NotEq, if x.Paren? && a.Paren? then a.e else a, Nothing(if x.Paren? then x.e else x, ptr))
  }

  /** Fixing an operand and then visiting it is fixing the visited one. */
  lemma {:induction false} FixThenVisit(x: Expr, ptr: Name -> bool)
    ensures FixAll(FixBool(x, ptr), ptr) == FixedOperand(x, FixAll(x, ptr), ptr)
  {
    if NeedFixBool(x) {
      assert FixAll(Number(0), ptr) == Number(0);
    }
  }

  function FixStmt(st: Stmt, ptr: Name -> bool): Stmt
    decreases st, 1
  {
    match st
    case ExprStmt(e) => ExprStmt(FixAll(e, ptr))
    case DeclStmt(_) => st
    case IfElse(c, thn, els) => IfElse(FixedOperand(c, FixAll(c, ptr), ptr), FixStmt(thn, ptr), FixStmt(els, ptr))
  }

  function FixBlock(b: seq<Stmt>, ptr: Name -> bool): seq<Stmt>
    decreases b, 0
  {
    if b == [] then [] else [FixStmt(b[0], ptr)] + FixBlock(b[1..], ptr)
  }

  // ----- what is a boolean in Go -----

  /** The expressions of Go's type bool: a function literal has the type it says, and then
      has to return a value of that type. */
  predicate GoBool(e: Expr) {
    match e
    case Unary(op, a) => op == Not && GoBool(a)
    case Binary(op, _, _) => Comparison(op)
    case Paren(a) => GoBool(a)
    case AndAnd(l, r) => GoBool(l) && GoBool(r)
    case OrOr(l, r) => GoBool(l) && GoBool(r)
    case SideEffectFunc(text, _, value, _) => text == "bool" && GoBool(value)
    case _ => false
  }

  /** Every operand of &&, || and !, and every condition, is a Go boolean. */
  predicate BoolOperands(e: Expr)
    decreases e, 1
  {
    match e
    case Number(_) => true
    case Var(_) => true
    case Unary(op, a) => (op == Not ==> GoBool(a)) && BoolOperands(a)
    case Binary(_, l, r) => BoolOperands(l) && BoolOperands(r)
    case Paren(a) => BoolOperands(a)
    case AndAnd(l, r) => GoBool(l) && GoBool(r) && BoolOperands(l) && BoolOperands(r)
    case OrOr(l, r) => GoBool(l) && GoBool(r) && BoolOperands(l) && BoolOperands(r)
    case Cond(c, y, z) => BoolOperands(c) && BoolOperands(y) && BoolOperands(z)
    case Assign(_, _, r) => BoolOperands(r)
    case IncDec(_, _, _) => true
    case SideEffectFunc(_, block, value, after) => BoolBlock(block) && BoolOperands(value) && BoolBlock(after)
  }

  predicate BoolStmt(st: Stmt)
    decreases st, 1
  {
    match st
    case ExprStmt(e) => BoolOperands(e)
    case DeclStmt(_) => true
    case IfElse(c, thn, els) => GoBool(c) && BoolOperands(c) && BoolStmt(thn) && BoolStmt(els)
  }

  predicate BoolBlock(b: seq<Stmt>)
    decreases b, 0
  {
    b == [] || (BoolStmt(b[0]) && BoolBlock(b[1..]))
  }

  /** An operand that is left alone for being a function literal returns a boolean. */
  predicate Answers(x: Expr) {
    NeedFixBool(x) ||
    match x
    case Paren(a) => Answers(a)
    case SideEffectFunc(_, _, value, _) => !NeedFixBool(value) && Answers(value)
    case _ => true
  }

  /** So do all operands of &&, || and !, and all conditions. */
  predicate AllAnswer(e: Expr)
    decreases e, 1
  {
    match e
    case Number(_) => true
    case Var(_) => true
    case Unary(op, a) => (op == Not ==> Answers(a)) && AllAnswer(a)
    case Binary(_, l, r) => AllAnswer(l) && AllAnswer(r)
    case Paren(a) => AllAnswer(a)
    case AndAnd(l, r) => Answers(l) && Answers(r) && AllAnswer(l) && AllAnswer(r)
    case OrOr(l, r) => Answers(l) && Answers(r) && AllAnswer(l) && AllAnswer(r)
    case Cond(c, y, z) => AllAnswer(c) && AllAnswer(y) && AllAnswer(z)
    case Assign(_, _, r) => AllAnswer(r)
    case IncDec(_, _, _) => true
    case SideEffectFunc(_, block, value, after) => BlockAnswers(block) && AllAnswer(value) && BlockAnswers(after)
  }

  predicate StmtAnswers(st: Stmt)
    decreases st, 1
  {
    match st
    case ExprStmt(e) => AllAnswer(e)
    case DeclStmt(_) => true
    case IfElse(c, thn, els) => Answers(c) && AllAnswer(c) && StmtAnswers(thn) && StmtAnswers(els)
  }

  predicate BlockAnswers(b: seq<Stmt>)
    decreases b, 0
  {
    b == [] || (StmtAnswers(b[0]) && BlockAnswers(b[1..]))
  }

  lemma {:induction false} FixedShape(e: Expr, ptr: Name -> bool)
    ensures NeedFixBool(FixAll(e, ptr)) == NeedFixBool(e) && FixAll(e, ptr).Paren? == e.Paren?
  {
    if e.Paren? {
      FixedShape(e.e, ptr);
    }
  }

  lemma {:induction false} BoolIsFixed(e: Expr)
    requires GoBool(e)
    ensures !NeedFixBool(e)
  {
    if e.Paren? {
      BoolIsFixed(e.e);
    }
  }

  /** Fixing an operand makes it a boolean, unless it is a literal that returns a number. */
  lemma {:induction false} OperandIsBoolean(x: Expr, ptr: Name -> bool)
    requires BoolOperands(FixAll(x, ptr))
    ensures GoBool(FixedOperand(x, FixAll(x, ptr), ptr)) <==> Answers(x)
    ensures BoolOperands(FixedOperand(x, FixAll(x, ptr), ptr))
  {
    if !NeedFixBool(x) {
      match x
      case Paren(a) => OperandIsBoolean(a, ptr);
      case SideEffectFunc(_, _, value, _) =>
        if NeedFixBool(value) {
          FixedShape(value, ptr);
          if GoBool(FixAll(value, ptr)) {
            BoolIsFixed(FixAll(value, ptr));
          }
        } else {
          OperandIsBoolean(value, ptr);
        }
      case _ =>
    }
  }

  /** What is not a boolean operand in it is not when the operand is fixed either. */
  lemma {:induction false} OperandsInside(x: Expr, ptr: Name -> bool)
    ensures BoolOperands(FixedOperand(x, FixAll(x, ptr), ptr)) == BoolOperands(FixAll(x, ptr))
  {
  }

  /** Main result: after fixing, all operands of logical operators and all conditions are Go
      booleans exactly when no function literal among them returns a number. */
  lemma {:induction false} FixAllIsBoolean(e: Expr, ptr: Name -> bool)
    ensures BoolOperands(FixAll(e, ptr)) <==> AllAnswer(e)
    decreases e, 1
  {
    match e
    case Number(_) =>
    case Var(_) =>
    case Unary(_, a) => FixOneIsBoolean(a, ptr);
    case Binary(_, l, r) => FixAllIsBoolean(l, ptr); FixAllIsBoolean(r, ptr);
    case Paren(a) => FixAllIsBoolean(a, ptr);
    case AndAnd(l, r) => FixOneIsBoolean(l, ptr); FixOneIsBoolean(r, ptr);
    case OrOr(l, r) => FixOneIsBoolean(l, ptr); FixOneIsBoolean(r, ptr);
    case Cond(c, y, z) => FixAllIsBoolean(c, ptr); FixAllIsBoolean(y, ptr); FixAllIsBoolean(z, ptr);
    case Assign(_, _, r) => FixAllIsBoolean(r, ptr);
    case IncDec(_, _, _) =>
    case SideEffectFunc(_, block, value, after) =>
      FixBlockIsBoolean(block, ptr);
      FixAllIsBoolean(value, ptr);
      FixBlockIsBoolean(after, ptr);
  }

  /** One operand, fixed and not. */
  lemma {:induction false} FixOneIsBoolean(x: Expr, ptr: Name -> bool)
    ensures BoolOperands(FixAll(x, ptr)) <==> AllAnswer(x)
    ensures var y := FixedOperand(x, FixAll(x, ptr), ptr);
            GoBool(y) && BoolOperands(y) <==> Answers(x) && AllAnswer(x)
    decreases x, 2
  {
    FixAllIsBoolean(x, ptr);
    OperandsInside(x, ptr);
    if BoolOperands(FixAll(x, ptr)) {
      OperandIsBoolean(x, ptr);
    }
  }

  lemma {:induction false} FixStmtIsBoolean(st: Stmt, ptr: Name -> bool)
    ensures BoolStmt(FixStmt(st, ptr)) <==> StmtAnswers(st)
    decreases st, 1
  {
    match st
    case ExprStmt(e) => FixAllIsBoolean(e, ptr);
    case DeclStmt(_) =>
    case IfElse(c, thn, els) =>
      FixOneIsBoolean(c, ptr);
      FixStmtIsBoolean(thn, ptr);
      FixStmtIsBoolean(els, ptr);
  }

  lemma {:induction false} FixBlockIsBoolean(b: seq<Stmt>, ptr: Name -> bool)
    ensures BoolBlock(FixBlock(b, ptr)) <==> BlockAnswers(b)
    decreases b, 0
  {
    if b != [] {
      FixStmtIsBoolean(b[0], ptr);
      FixBlockIsBoolean(b[1..], ptr);
      assert FixBlock(b, ptr)[1..] == FixBlock(b[1..], ptr);
    }
  }

  /** != compares, and the operands of a binary operator run in a fixed order. */
  ghost predicate Plain(o: Ops) {
    && LogicalNot(o)
    && (forall v :: o.bin(NotEq, v, 0) == Truth(v != 0))
    && (forall op, l, r, op', l', r' :: o.rightFirst(op, l, r) == o.rightFirst(op', l', r'))
  }

  /** nil is the null pointer, and is not assigned to. */
  ghost predicate NilStays(w: set<Name>, s: Store) {
    s[NIL] == 0 && NIL !in w
  }

  /** Making conditions boolean changes neither values nor effects nor their order. */
  lemma {:induction false} FixAllMeans(e: Expr, s: Store, o: Ops, ptr: Name -> bool)
    requires Plain(o) && NilStays(Writes(e), s)
    ensures Eval(FixAll(e, ptr), s, o) == Eval(e, s, o)
    decreases e, 1
  {
    match e
    case Number(_) =>
    case Var(_) =>
    case Unary(op, a) =>
      FixAllMeans(a, s, o, ptr);
      OperandMeans(a, s, o, ptr);
    case Binary(op, l, r) => FixBinaryMeans(op, l, r, s, o, ptr);
    case Paren(a) => FixAllMeans(a, s, o, ptr);
    case AndAnd(l, r) => FixBothMean(e, l, r, s, o, ptr);
    case OrOr(l, r) => FixBothMean(e, l, r, s, o, ptr);
    case Cond(c, y, z) =>
      FixAllMeans(c, s, o, ptr);
      WritesOnly(c, s, o);
      FixAllMeans(y, Eval(c, s, o).1, o, ptr);
      FixAllMeans(z, Eval(c, s, o).1, o, ptr);
    case Assign(_, _, r) => FixAllMeans(r, s, o, ptr);
    case IncDec(_, _, _) =>
    case SideEffectFunc(_, block, value, after) =>
      FixBlockMeans(block, s, o, ptr);
      BlockWritesOnly(block, s, o);
      var t := Exec(block, s, o);
      FixAllMeans(value, t, o, ptr);
      WritesOnly(value, t, o);
      FixBlockMeans(after, Eval(value, t, o).1, o, ptr);
  }

  lemma {:induction false} FixBinaryMeans(op: BinOp, l: Expr, r: Expr, s: Store, o: Ops, ptr: Name -> bool)
    requires Plain(o) && NilStays(Writes(l) + Writes(r), s)
    ensures Eval(Binary(op, FixAll(l, ptr), FixAll(r, ptr)), s, o) == Eval(Binary(op, l, r), s, o)
    decreases Binary(op, l, r), 0
  {
    assert o.rightFirst(op, FixAll(l, ptr), FixAll(r, ptr)) == o.rightFirst(op, l, r);
    if o.rightFirst(op, l, r) {
      WritesOnly(r, s, o);
      FixAllMeans(r, s, o, ptr);
      FixAllMeans(l, Eval(r, s, o).1, o, ptr);
    } else {
      WritesOnly(l, s, o);
      FixAllMeans(l, s, o, ptr);
      FixAllMeans(r, Eval(l, s, o).1, o, ptr);
    }
  }

  /** Two operands, the second run after the first. */
  lemma {:induction false} FixBothMean(e: Expr, l: Expr, r: Expr, s: Store, o: Ops, ptr: Name -> bool)
    requires e == AndAnd(l, r) || e == OrOr(l, r)
    requires Plain(o) && NilStays(Writes(l) + Writes(r), s)
    ensures Fixed(l, s, o, ptr) && Fixed(r, Eval(l, s, o).1, o, ptr)
    decreases e, 0
  {
    var t := Eval(l, s, o).1;
    FixAllMeans(l, s, o, ptr);
    WritesOnly(l, s, o);
    FixAllMeans(r, t, o, ptr);
    OperandMeans(l, s, o, ptr);
    OperandMeans(r, t, o, ptr);
  }

  /** The fixed operand is true when the operand is, and does the same. */
  ghost predicate Fixed(x: Expr, s: Store, o: Ops, ptr: Name -> bool) {
    var (v, t) := Eval(FixedOperand(x, FixAll(x, ptr), ptr), s, o);
    (v != 0) == (Eval(x, s, o).0 != 0) && t == Eval(x, s, o).1
  }

  lemma {:induction false} OperandMeans(x: Expr, s: Store, o: Ops, ptr: Name -> bool)
    requires Plain(o) && Eval(FixAll(x, ptr), s, o) == Eval(x, s, o) && NilStays(Writes(x), s)
    ensures Fixed(x, s, o, ptr)
  {
    if NeedFixBool(x) {
      var a, zero := FixAll(x, ptr), Nothing(if x.Paren? then x.e else x, ptr);
      var b := if x.Paren? && a.Paren? then a.e else a;
      assert Eval(b, s, o) == Eval(x, s, o);
      var (v, t) := Eval(b, s, o);
      WritesOnly(x, s, o);
      assert Eval(zero, s, o) == (0, s) && Eval(zero, t, o) == (0, t);
      assert Eval(Binary(NotEq, b, zero), s, o) == (o.bin(NotEq, v, 0), t);
    }
  }

  lemma {:induction false} FixStmtMeans(st: Stmt, s: Store, o: Ops, ptr: Name -> bool)
    requires Plain(o) && NilStays(StmtWrites(st), s)
    ensures ExecStmt(FixStmt(st, ptr), s, o) == ExecStmt(st, s, o)
    decreases st, 1
  {
    match st
    case ExprStmt(e) => FixAllMeans(e, s, o, ptr);
    case DeclStmt(_) =>
    case IfElse(c, thn, els) =>
      FixAllMeans(c, s, o, ptr);
      OperandMeans(c, s, o, ptr);
      WritesOnly(c, s, o);
      FixStmtMeans(thn, Eval(c, s, o).1, o, ptr);
      FixStmtMeans(els, Eval(c, s, o).1, o, ptr);
  }

  lemma {:induction false} FixBlockMeans(b: seq<Stmt>, s: Store, o: Ops, ptr: Name -> bool)
    requires Plain(o) && NilStays(BlockWrites(b), s)
    ensures Exec(FixBlock(b, ptr), s, o) == Exec(b, s, o)
    decreases b, 0
  {
    if b != [] {
      FixStmtMeans(b[0], s, o, ptr);
      StmtWritesOnly(b[0], s, o);
      FixBlockMeans(b[1..], ExecStmt(b[0], s, o), o, ptr);
      assert FixBlock(b, ptr)[1..] == FixBlock(b[1..], ptr);
    }
  }

  // ----- negations -----

  function Inverse(op: BinOp): BinOp
    requires Comparison(op)
  {
    match op
    case EqEq => NotEq
    case NotEq => EqEq
    case Lt => GtEq
    case GtEq => Lt
    case LtEq => Gt
    case Gt => LtEq
  }

  function Unwrapped(x: Expr): Expr {
    if x.Paren? then Unwrapped(x.e) else x
  }

  /** !x, for an x whose parts are simplified already. `float` says which expressions have
      a floating-point type; the operand of ! is asked, not those of the comparison. */
  function Negated(x: Expr, float: Expr -> bool): Expr {
    var y := Unwrapped(x);
    if y.AndAnd? then OrOr(Unary(Not, y.l), Unary(Not, y.r))
    else if y.OrOr? then AndAnd(Unary(Not, y.l), Unary(Not, y.r))
    else if y.Binary? && Comparison(y.bop) && !float(x) then Binary(Inverse(y.bop), y.l, y.r)
    else Unary(Not, x)
  }

  method SimplifyNot(x: Expr, float: Expr -> bool) returns (e: Expr)
    ensures e == Negated(x, float)
  {
    var y := x;
    while y.Paren?
      invariant Unwrapped(y) == Unwrapped(x)
      decreases y
    {
      y := y.e;
    }
    e := Unary(Not, x);
    match y
    case AndAnd(l, r) => e := OrOr(Unary(Not, l), Unary(Not, r));
    case OrOr(l, r) => e := AndAnd(Unary(Not, l), Unary(Not, r));
    case Binary(op, l, r) =>
      if Comparison(op) && !float(x) {
        e := Binary(Inverse(op), l, r);
      }
    case _ =>
  }

  function Simplify(e: Expr, float: Expr -> bool): Expr
    decreases e, 1
  {
    match e
    case Number(_) => e
    case Var(_) => e
    case Unary(op, a) =>
      var a' := Simplify(a, float);
      if op == Not then Negated(a', float) else Unary(op, a')
    case Binary(op, l, r) => Binary(op, Simplify(l, float), Simplify(r, float))
    case Paren(a) => Paren(Simplify(a, float))
    case AndAnd(l, r) => AndAnd(Simplify(l, float), Simplify(r, float))
    case OrOr(l, r) => OrOr(Simplify(l, float), Simplify(r, float))
    case Cond(c, y, z) => Cond(Simplify(c, float), Simplify(y, float), Simplify(z, float))
    case Assign(op, x, r) => Assign(op, x, Simplify(r, float))
    case IncDec(_, _, _) => e
    case SideEffectFunc(text, block, value, after) =>
      SideEffectFunc(text, SimplifyBlock(block, float), Simplify(value, float), SimplifyBlock(after, float))
  }

  function SimplifyStmt(st: Stmt, float: Expr -> bool): Stmt
    decreases st, 1
  {
    match st
    case ExprStmt(e) => ExprStmt(Simplify(e, float))
    case DeclStmt(_) => st
    case IfElse(c, thn, els) => IfElse(Simplify(c, float), SimplifyStmt(thn, float), SimplifyStmt(els, float))
  }

  function SimplifyBlock(b: seq<Stmt>, float: Expr -> bool): seq<Stmt>
    decreases b, 0
  {
    if b == [] then [] else [SimplifyStmt(b[0], float)] + SimplifyBlock(b[1..], float)
  }

  /** Each comparison is the negation of another, as over a total order. */
  ghost predicate Complementary(o: Ops) {
    forall op, v, w :: Inverts(op, v, w, o)
  }

  ghost predicate Inverts(op: BinOp, v: int, w: int, o: Ops) {
    Comparison(op) ==> o.bin(Inverse(op), v, w) == Truth(o.bin(op, v, w) == 0)
  }

  lemma {:induction false} UnwrappedMeans(x: Expr, s: Store, o: Ops)
    ensures Eval(Unwrapped(x), s, o) == Eval(x, s, o)
  {
    if x.Paren? {
      UnwrappedMeans(x.e, s, o);
    }
  }

  lemma {:induction false} NegatedMeans(x: Expr, s: Store, float: Expr -> bool, o: Ops)
    requires Plain(o) && Complementary(o)
    ensures Eval(Negated(x, float), s, o) == Eval(Unary(Not, x), s, o)
  {
    var y := Unwrapped(x);
    UnwrappedMeans(x, s, o);
    assert Eval(Unary(Not, x), s, o) == (Truth(Eval(y, s, o).0 == 0), Eval(y, s, o).1);
    if y.AndAnd? || y.OrOr? {
      var (v, t) := Eval(y.l, s, o);
      NotMeans(y.l, s, o);
      NotMeans(y.r, t, o);
    } else if y.Binary? && Comparison(y.bop) && !float(x) {
      var op := y.bop;
      ComparedMeans(op, y.l, y.r, s, o);
    }
  }

  lemma {:induction false} ComparedMeans(op: BinOp, l: Expr, r: Expr, s: Store, o: Ops)
    requires Plain(o) && Complementary(o) && Comparison(op)
    ensures var (v, t) := Eval(Binary(op, l, r), s, o);
            Eval(Binary(Inverse(op), l, r), s, o) == (Truth(v == 0), t)
  {
    assert o.rightFirst(Inverse(op), l, r) == o.rightFirst(op, l, r);
    var first, second := if o.rightFirst(op, l, r) then r else l, if o.rightFirst(op, l, r) then l else r;
    var (v, s1) := Eval(first, s, o);
    var w := Eval(second, s1, o).0;
    assert Inverts(op, v, w, o) && Inverts(op, w, v, o);
  }

  lemma {:induction false} NotMeans(x: Expr, s: Store, o: Ops)
    requires LogicalNot(o)
    ensures Eval(Unary(Not, x), s, o) == (Truth(Eval(x, s, o).0 == 0), Eval(x, s, o).1)
  {
  }

  lemma {:induction false} SimplifyKeeps(e: Expr, s: Store, float: Expr -> bool, o: Ops)
    requires Plain(o) && Complementary(o)
    ensures Eval(Simplify(e, float), s, o) == Eval(e, s, o)
    decreases e, 1
  {
    match e
    case Number(_) =>
    case Var(_) =>
    case Unary(op, a) =>
      SimplifyKeeps(a, s, float, o);
      NegatedMeans(Simplify(a, float), s, float, o);
    case Binary(op, l, r) =>
      var right := o.rightFirst(op, l, r);
      assert o.rightFirst(op, Simplify(l, float), Simplify(r, float)) == right;
      SimplifyKeeps(l, if right then Eval(r, s, o).1 else s, float, o);
      SimplifyKeeps(r, if right then s else Eval(l, s, o).1, float, o);
    case Paren(a) => SimplifyKeeps(a, s, float, o);
    case AndAnd(l, r) =>
      SimplifyKeeps(l, s, float, o);
      SimplifyKeeps(r, Eval(l, s, o).1, float, o);
    case OrOr(l, r) =>
      SimplifyKeeps(l, s, float, o);
      SimplifyKeeps(r, Eval(l, s, o).1, float, o);
    case Cond(c, y, z) =>
      SimplifyKeeps(c, s, float, o);
      SimplifyKeeps(y, Eval(c, s, o).1, float, o);
      SimplifyKeeps(z, Eval(c, s, o).1, float, o);
    case Assign(_, _, r) => SimplifyKeeps(r, s, float, o);
    case IncDec(_, _, _) =>
    case SideEffectFunc(_, block, value, after) =>
      SimplifyBlockKeeps(block, s, float, o);
      SimplifyKeeps(value, Exec(block, s, o), float, o);
      SimplifyBlockKeeps(after, Eval(value, Exec(block, s, o), o).1, float, o);
  }

  lemma {:induction false} SimplifyStmtKeeps(st: Stmt, s: Store, float: Expr -> bool, o: Ops)
    requires Plain(o) && Complementary(o)
    ensures ExecStmt(SimplifyStmt(st, float), s, o) == ExecStmt(st, s, o)
    decreases st, 1
  {
    match st
    case ExprStmt(e) => SimplifyKeeps(e, s, float, o);
    case DeclStmt(_) =>
    case IfElse(c, thn, els) =>
      SimplifyKeeps(c, s, float, o);
      SimplifyStmtKeeps(thn, Eval(c, s, o).1, float, o);
      SimplifyStmtKeeps(els, Eval(c, s, o).1, float, o);
  }

  lemma {:induction false} SimplifyBlockKeeps(b: seq<Stmt>, s: Store, float: Expr -> bool, o: Ops)
    requires Plain(o) && Complementary(o)
    ensures Exec(SimplifyBlock(b, float), s, o) == Exec(b, s, o)
    decreases b, 0
  {
    if b != [] {
      SimplifyStmtKeeps(b[0], s, float, o);
      SimplifyBlockKeeps(b[1..], ExecStmt(b[0], s, o), float, o);
      assert SimplifyBlock(b, float)[1..] == SimplifyBlock(b[1..], float);
    }
  }

  // ----- how far negations are pushed -----

  /** No negation is left of &&, || or a comparison, but of operands of && and || that it has
      been pushed to, and of comparisons of floating-point type. */
  ghost predicate Driven(e: Expr, float: Expr -> bool)
    decreases e, 2
  {
    match e
    case Number(_) => true
    case Var(_) => true
    case Unary(op, a) =>
      Driven(a, float) && (op == Not ==> NoLogic(Unwrapped(a)) || (float(a) && Compares(Unwrapped(a))))
    case Binary(_, l, r) => Driven(l, float) && Driven(r, float)
    case Paren(a) => Driven(a, float)
    case AndAnd(l, r) => Pushed(l, float) && Pushed(r, float)
    case OrOr(l, r) => Pushed(l, float) && Pushed(r, float)
    case Cond(c, y, z) => Driven(c, float) && Driven(y, float) && Driven(z, float)
    case Assign(_, _, r) => Driven(r, float)
    case IncDec(_, _, _) => true
    case SideEffectFunc(_, block, value, after) =>
      BlockDriven(block, float) && Driven(value, float) && BlockDriven(after, float)
  }

  predicate NoLogic(y: Expr) {
    !y.AndAnd? && !y.OrOr? && !Compares(y)
  }

  predicate Compares(e: Expr) {
    e.Binary? && Comparison(e.bop)
  }

  ghost predicate Pushed(e: Expr, float: Expr -> bool)
    decreases e, 3
  {
    Driven(e, float) || (e.Unary? && e.uop == Not && Pushed(e.e, float))
  }

  ghost predicate StmtDriven(st: Stmt, float: Expr -> bool)
    decreases st, 1
  {
    match st
    case ExprStmt(e) => Driven(e, float)
    case DeclStmt(_) => true
    case IfElse(c, thn, els) => Driven(c, float) && StmtDriven(thn, float) && StmtDriven(els, float)
  }

  ghost predicate BlockDriven(b: seq<Stmt>, float: Expr -> bool)
    decreases b, 0
  {
    b == [] || (StmtDriven(b[0], float) && BlockDriven(b[1..], float))
  }

  lemma {:induction false} UnwrappedDriven(x: Expr, float: Expr -> bool)
    requires Driven(x, float)
    ensures Driven(Unwrapped(x), float) && !Unwrapped(x).Paren?
  {
    if x.Paren? {
      UnwrappedDriven(x.e, float);
    }
  }

  lemma {:induction false} NegatedDriven(x: Expr, float: Expr -> bool)
    requires Driven(x, float)
    ensures Driven(Negated(x, float), float)
  {
    UnwrappedDriven(x, float);
    var y := Unwrapped(x);
    if y.AndAnd? || y.OrOr? {
      assert Pushed(Unary(Not, y.l), float) && Pushed(Unary(Not, y.r), float);
    }
  }

  /** Main result: simplifying pushes every negation as far as one pass can. */
  lemma {:induction false} SimplifyDrives(e: Expr, float: Expr -> bool)
    ensures Driven(Simplify(e, float), float)
    decreases e, 1
  {
    match e
    case Number(_) =>
    case Var(_) =>
    case Unary(_, a) => SimplifyDrives(a, float); NegatedDriven(Simplify(a, float), float);
    case Binary(_, l, r) => SimplifyDrives(l, float); SimplifyDrives(r, float);
    case Paren(a) => SimplifyDrives(a, float);
    case AndAnd(l, r) => SimplifyDrives(l, float); SimplifyDrives(r, float);
    case OrOr(l, r) => SimplifyDrives(l, float); SimplifyDrives(r, float);
    case Cond(c, y, z) => SimplifyDrives(c, float); SimplifyDrives(y, float); SimplifyDrives(z, float);
    case Assign(_, _, r) => SimplifyDrives(r, float);
    case IncDec(_, _, _) =>
    case SideEffectFunc(_, block, value, after) =>
      SimplifyBlockDrives(block, float);
      SimplifyDrives(value, float);
      SimplifyBlockDrives(after, float);
  }

  lemma {:induction false} SimplifyStmtDrives(st: Stmt, float: Expr -> bool)
    ensures StmtDriven(SimplifyStmt(st, float), float)
    decreases st, 1
  {
    match st
    case ExprStmt(e) => SimplifyDrives(e, float);
    case DeclStmt(_) =>
    case IfElse(c, thn, els) =>
      SimplifyDrives(c, float);
      SimplifyStmtDrives(thn, float);
      SimplifyStmtDrives(els, float);
  }

  lemma {:induction false} SimplifyBlockDrives(b: seq<Stmt>, float: Expr -> bool)
    ensures BlockDriven(SimplifyBlock(b, float), float)
    decreases b, 0
  {
    if b != [] {
      SimplifyStmtDrives(b[0], float);
      SimplifyBlockDrives(b[1..], float);
      assert SimplifyBlock(b, float)[1..] == SimplifyBlock(b[1..], float);
    }
  }

  function Zero(x: Name): int { 0 }

  ghost predicate Kept(e: Expr, float: Expr -> bool, o: Ops) {
    forall s: Store :: Eval(Simplify(e, float), s, o) == Eval(e, s, o)
  }

  /** Main result: when no comparison as such has a floating-point type, simplifying keeps
      every expression's value, effects and their order exactly when the comparison
      operators are complementary, as they are over a total order and not over floats. */
  lemma {:induction false} SimplifyMeans(float: Expr -> bool, o: Ops)
    requires Plain(o)
    requires forall e :: Compares(e) ==> !float(e)
    ensures (forall e :: Kept(e, float, o)) <==> Complementary(o)
  {
    if Complementary(o) {
      forall e, s: Store ensures Eval(Simplify(e, float), s, o) == Eval(e, s, o) {
        SimplifyKeeps(e, s, float, o);
      }
    }
    if forall e :: Kept(e, float, o) {
      forall op, v, w ensures Inverts(op, v, w, o) {
        if Comparison(op) {
          var s: Store := imap x: Name :: Zero(x);
          var e := Unary(Not, Binary(op, Number(v), Number(w)));
          assert Compares(e.e);
          Inverted(op, v, w, s, float, o);
          assert Kept(e, float, o);
          assert Eval(Simplify(e, float), s, o) == Eval(e, s, o);
        }
      }
    }
  }

  lemma {:induction false} Inverted(op: BinOp, v: int, w: int, s: Store, float: Expr -> bool, o: Ops)
    requires Comparison(op) && LogicalNot(o) && !float(Binary(op, Number(v), Number(w)))
    ensures var e := Unary(Not, Binary(op, Number(v), Number(w)));
            && Eval(Simplify(e, float), s, o).0 == o.bin(Inverse(op), v, w)
            && Eval(e, s, o).0 == Truth(o.bin(op, v, w) == 0)
  {
    var c := Binary(op, Number(v), Number(w));
    assert Simplify(c, float) == c;
    assert Simplify(Unary(Not, c), float) == Negated(c, float) == Binary(Inverse(op), Number(v), Number(w));
    assert Eval(Number(v), s, o) == (v, s) && Eval(Number(w), s, o) == (w, s);
    assert Eval(c, s, o) == (o.bin(op, v, w), s);
  }

  /** Simplifying keeps conditions boolean. */
  lemma {:induction false} SimplifyStaysBoolean(e: Expr, float: Expr -> bool)
    requires BoolOperands(e)
    ensures BoolOperands(Simplify(e, float)) && GoBool(Simplify(e, float)) == GoBool(e)
    decreases e, 1
  {
    match e
    case Number(_) =>
    case Var(_) =>
    case Unary(op, a) =>
      SimplifyStaysBoolean(a, float);
      UnwrappedBoolean(Simplify(a, float));
    case Binary(_, l, r) => SimplifyStaysBoolean(l, float); SimplifyStaysBoolean(r, float);
    case Paren(a) => SimplifyStaysBoolean(a, float);
    case AndAnd(l, r) => SimplifyStaysBoolean(l, float); SimplifyStaysBoolean(r, float);
    case OrOr(l, r) => SimplifyStaysBoolean(l, float); SimplifyStaysBoolean(r, float);
    case Cond(c, y, z) =>
      SimplifyStaysBoolean(c, float);
      SimplifyStaysBoolean(y, float);
      SimplifyStaysBoolean(z, float);
    case Assign(_, _, r) => SimplifyStaysBoolean(r, float);
    case IncDec(_, _, _) =>
    case SideEffectFunc(_, block, value, after) =>
      SimplifyBlockBoolean(block, float);
      SimplifyStaysBoolean(value, float);
      SimplifyBlockBoolean(after, float);
  }

  lemma {:induction false} UnwrappedBoolean(x: Expr)
    ensures BoolOperands(x) == BoolOperands(Unwrapped(x)) && GoBool(x) == GoBool(Unwrapped(x))
  {
    if x.Paren? {
      UnwrappedBoolean(x.e);
    }
  }

  lemma {:induction false} SimplifyStmtBoolean(st: Stmt, float: Expr -> bool)
    requires BoolStmt(st)
    ensures BoolStmt(SimplifyStmt(st, float))
    decreases st, 1
  {
    match st
    case ExprStmt(e) => SimplifyStaysBoolean(e, float);
    case DeclStmt(_) =>
    case IfElse(c, thn, els) =>
      SimplifyStaysBoolean(c, float);
      SimplifyStmtBoolean(thn, float);
      SimplifyStmtBoolean(els, float);
  }

  lemma {:induction false} SimplifyBlockBoolean(b: seq<Stmt>, float: Expr -> bool)
    requires BoolBlock(b)
    ensures BoolBlock(SimplifyBlock(b, float))
    decreases b, 0
  {
    if b != [] {
      SimplifyStmtBoolean(b[0], float);
      SimplifyBlockBoolean(b[1..], float);
      assert SimplifyBlock(b, float)[1..] == SimplifyBlock(b[1..], float);
    }
  }
}
