/** What Go accepts of the rewritten expressions: booleans, numbers, and names in scope. */
module Typing {
  import opened Booleans
  import opened CTree
  import opened Scopes
  import opened SideEffects

  /** Something in it has to move: an assignment, increment or conditional that is not in a
      right operand of && or ||. */
  predicate Moves(e: Expr) {
    match e
    case Number(_) => false
    case Var(_) => false
    case Unary(_, a) => Moves(a)
    case Paren(a) => Moves(a)
    case Binary(_, l, r) => Moves(l) || Moves(r)
    case AndAnd(l, _) => Moves(l)
    case OrOr(l, _) => Moves(l)
    case SideEffectFunc(_, _, value, _) => Moves(value)
    case _ => true
  }

  lemma {:induction false} MovesIff(x: Expr, noAfter: bool, g: nat)
    ensures Moves(x) <==> Hoist(x, false, noAfter, g).before != [] || Hoist(x, false, noAfter, g).after != []
  {
    match x
    case Number(_) =>
    case Var(_) =>
    case Unary(_, a) => MovesIff(a, noAfter, g);
    case Paren(a) => MovesIff(a, noAfter, g);
    case Binary(_, l, r) =>
      MovesIff(l, noAfter, g);
      MovesIff(r, noAfter, Hoist(l, false, noAfter, g).gen);
    case AndAnd(l, _) => MovesIff(l, true, g);
    case OrOr(l, _) => MovesIff(l, true, g);
    case Cond(_, _, _) =>
    case Assign(_, _, _) =>
    case IncDec(_, _, _) =>
    case SideEffectFunc(_, _, value, _) => MovesIff(value, noAfter, g);
  }

  /** Hoisting does not change what needs a comparison, and leaves no literal as an operand. */
  lemma {:induction false} HoistShape(x: Expr, noAfter: bool, g: nat)
    requires FromC(x)
    ensures NeedFixBool(Hoist(x, false, noAfter, g).e) == NeedFixBool(x)
    ensures Answers(Hoist(x, false, noAfter, g).e)
  {
    match x
    case Paren(a) => HoistShape(a, noAfter, g);
    case _ =>
  }

  // ----- operands of logical operators -----

  /** A right operand of && or || from which something has to move is a boolean itself. */
  predicate RightsBoolean(e: Expr) {
    match e
    case Number(_) => true
    case Var(_) => true
    case Unary(_, a) => RightsBoolean(a)
    case Paren(a) => RightsBoolean(a)
    case Binary(_, l, r) => RightsBoolean(l) && RightsBoolean(r)
    case AndAnd(l, r) => RightsBoolean(l) && RightsBoolean(r) && (Moves(r) ==> !NeedFixBool(r))
    case OrOr(l, r) => RightsBoolean(l) && RightsBoolean(r) && (Moves(r) ==> !NeedFixBool(r))
    case Cond(c, y, z) => RightsBoolean(c) && RightsBoolean(y) && RightsBoolean(z)
    case Assign(_, _, r) => RightsBoolean(r)
    case IncDec(_, _, _) => true
    case SideEffectFunc(_, _, value, _) => RightsBoolean(value)
  }

  predicate PiecesAnswer(h: Hoisted) {
    AllAnswer(h.e) && BlockAnswers(h.before) && BlockAnswers(h.after)
  }

  lemma {:induction false} AnswersAppend(a: seq<Stmt>, b: seq<Stmt>)
    ensures BlockAnswers(a + b) <==> BlockAnswers(a) && BlockAnswers(b)
  {
    if a == [] {
      assert a + b == b;
    } else {
      AnswersAppend(a[1..], b);
      assert (a + b)[1..] == a[1..] + b;
    }
  }

  lemma {:induction false} AnswersOne(st: Stmt)
    ensures BlockAnswers([st]) <==> StmtAnswers(st)
  {
    assert [st][1..] == [];
  }

  /** A right operand, with what has to move in a function literal. */
  lemma {:induction false} RightAnswers(r: Expr, g: nat)
    requires FromC(r)
    ensures var h := Hoist(r, false, false, g);
            var w := Wrapped("bool", h);
            Answers(w) && AllAnswer(w) <==> PiecesAnswer(h) && (Moves(r) ==> !NeedFixBool(r))
  {
    MovesIff(r, false, g);
    HoistShape(r, false, g);
  }

  lemma {:induction false} ArmAnswers(text: string, h: Hoisted)
    ensures AllAnswer(Wrapped(text, h)) <==> PiecesAnswer(h)
  {
  }

  lemma {:induction false} HoistAnswers(x: Expr, stmt: bool, noAfter: bool, g: nat)
    requires FromC(x)
    ensures PiecesAnswer(Hoist(x, stmt, noAfter, g)) <==> RightsBoolean(x)
    decreases x, 1
  {
    match x
    case Number(_) =>
    case Var(_) =>
    case Unary(_, a) => HoistAnswers(a, false, noAfter, g); HoistShape(a, noAfter, g);
    case Paren(a) => HoistAnswers(a, false, noAfter, g);
    case Binary(_, l, r) =>
      var hl := Hoist(l, false, noAfter, g);
      var hr := Hoist(r, false, noAfter, hl.gen);
      HoistAnswers(l, false, noAfter, g);
      HoistAnswers(r, false, noAfter, hl.gen);
      AnswersAppend(hl.before, hr.before);
      AnswersAppend(hl.after, hr.after);
    case AndAnd(l, r) => ShortAnswers(x, l, r, stmt, noAfter, g);
    case OrOr(l, r) => ShortAnswers(x, l, r, stmt, noAfter, g);
    case Cond(c, y, z) =>
      var hc := Hoist(c, false, true, g);
      var hy := Hoist(y, false, false, hc.gen);
      HoistAnswers(c, false, true, g);
      HoistAnswers(y, false, false, hc.gen);
      HoistAnswers(z, false, false, hy.gen);
      HoistShape(c, true, g);
      CondAnswers(hc, hy, Hoist(z, false, false, hy.gen));
    case Assign(op, v, r) =>
      var h := Hoist(r, false, noAfter, g);
      HoistAnswers(r, false, noAfter, g);
      AnswersOne(ExprStmt(Assign(op, v, h.e)));
      AnswersAppend(h.before, [ExprStmt(Assign(op, v, h.e))]);
    case IncDec(_, inc, v) => StepAnswers(inc, v, Tmp(g));
  }

  lemma {:induction false} StepAnswers(inc: bool, v: Name, t: Name)
    ensures var save, step := ExprStmt(Assign(ColonEq, t, Var(v))), ExprStmt(IncDec(false, inc, v));
            BlockAnswers([step]) && BlockAnswers([save, step])
  {
    var save, step := ExprStmt(Assign(ColonEq, t, Var(v))), ExprStmt(IncDec(false, inc, v));
    AnswersOne(step);
    AnswersOne(save);
    AnswersAppend([save], [step]);
    assert [save] + [step] == [save, step];
    assert AllAnswer(Assign(ColonEq, t, Var(v))) && AllAnswer(Var(v));
  }

  lemma {:induction false} ShortAnswers(x: Expr, l: Expr, r: Expr, stmt: bool, noAfter: bool, g: nat)
    requires (x == AndAnd(l, r) || x == OrOr(l, r)) && FromC(x)
    ensures PiecesAnswer(Hoist(x, stmt, noAfter, g)) <==> RightsBoolean(x)
    decreases x, 0
  {
    var hl := Hoist(l, false, true, g);
    HoistAnswers(l, false, true, g);
    HoistAnswers(r, false, false, hl.gen);
    HoistShape(l, true, g);
    RightAnswers(r, hl.gen);
  }

  lemma {:induction false} CondAnswers(hc: Hoisted, hy: Hoisted, hz: Hoisted)
    requires Answers(hc.e)
    ensures PiecesAnswer(HoistedCond(hc, hy, hz)) <==> PiecesAnswer(hc) && PiecesAnswer(hy) && PiecesAnswer(hz)
  {
    var t := Tmp(hz.gen);
    var st := Choice(t, hc.e, Wrapped("unknown", hy), Wrapped("unknown", hz));
    ArmAnswers("unknown", hy);
    ArmAnswers("unknown", hz);
    ChoiceAnswers(t, hc.e, Wrapped("unknown", hy), Wrapped("unknown", hz));
    AnswersOne(st);
    AnswersOne(DeclStmt(t));
    AnswersAppend([DeclStmt(t)], [st]);
    assert [DeclStmt(t)] + [st] == [DeclStmt(t), st];
    AnswersAppend(hc.before, [DeclStmt(t), st]);
  }

  lemma {:induction false} ChoiceAnswers(t: Name, c: Expr, y: Expr, z: Expr)
    ensures StmtAnswers(Choice(t, c, y, z)) <==> Answers(c) && AllAnswer(c) && AllAnswer(y) && AllAnswer(z)
  {
    assert AllAnswer(Assign(Set, t, y)) == AllAnswer(y) && AllAnswer(Assign(Set, t, z)) == AllAnswer(z);
    assert StmtAnswers(ExprStmt(Assign(Set, t, y))) == AllAnswer(y);
    assert StmtAnswers(ExprStmt(Assign(Set, t, z))) == AllAnswer(z);
  }

  predicate PiecesBoolean(h: Hoisted, ptr: Name -> bool) {
    BoolOperands(FixAll(h.e, ptr)) && BoolBlock(FixBlock(h.before, ptr)) && BoolBlock(FixBlock(h.after, ptr))
  }

  /** Main result: of any C expression, after moving its side effects and fixing conditions,
      all operands of logical operators are Go booleans exactly when every right operand of
      && or || from which something has to move is a boolean itself. */
  lemma {:induction false} OperandsBoolean(e: Expr, stmt: bool, noAfter: bool, g: nat, ptr: Name -> bool)
    requires FromC(e)
    ensures PiecesBoolean(Hoist(e, stmt, noAfter, g), ptr) <==> RightsBoolean(e)
  {
    var h := Hoist(e, stmt, noAfter, g);
    HoistAnswers(e, stmt, noAfter, g);
    FixAllIsBoolean(h.e, ptr);
    FixBlockIsBoolean(h.before, ptr);
    FixBlockIsBoolean(h.after, ptr);
  }

  /** a && (y = 0) leaves a function literal that says bool and returns a number. */
  lemma {:induction false} LiteralReturnsNumber(noAfter: bool, g: nat, ptr: Name -> bool)
    ensures var e := AndAnd(Var(User("a")), Paren(Assign(Set, User("y"), Number(0))));
            && FromC(e) && WellSequenced(e) && !PiecesBoolean(Hoist(e, false, noAfter, g), ptr)
  {
    var y := Assign(Set, User("y"), Number(0));
    var e := AndAnd(Var(User("a")), Paren(y));
    assert Moves(Paren(y)) && NeedFixBool(Paren(y));
    OperandsBoolean(e, false, noAfter, g, ptr);
  }

  // ----- types -----

  /** Expressions of a numeric type; pointers count as numbers. */
  predicate IsNum(e: Expr) {
    match e
    case Number(_) => true
    case Var(_) => true
    case Unary(op, a) => op != Not && IsNum(a)
    case Paren(a) => IsNum(a)
    case Binary(op, l, r) => !Comparison(op) && IsNum(l) && IsNum(r)
    case _ => false
  }

  /** Expressions of type bool, all parts of which have the types they need. */
  predicate IsBool(e: Expr)
    decreases e, 1
  {
    match e
    case Unary(op, a) => op == Not && IsBool(a)
    case Paren(a) => IsBool(a)
    case Binary(op, l, r) =>
      Comparison(op) && ((IsNum(l) && IsNum(r)) || (op in {EqEq, NotEq} && IsBool(l) && IsBool(r)))
    case AndAnd(l, r) => IsBool(l) && IsBool(r)
    case OrOr(l, r) => IsBool(l) && IsBool(r)
    case SideEffectFunc(text, block, value, after) =>
      text == "bool" && BlockTyped(block) && IsBool(value) && BlockTyped(after)
    case _ => false
  }

  /** Statements of Go: an expression is one only if it assigns or counts. */
  predicate StmtTyped(st: Stmt)
    decreases st, 1
  {
    match st
    case ExprStmt(e) => (e.Assign? && IsNum(e.r)) || (e.IncDec? && !e.prefix)
    case DeclStmt(_) => true
    case IfElse(c, thn, els) => IsBool(c) && StmtTyped(thn) && StmtTyped(els)
  }

  predicate BlockTyped(b: seq<Stmt>)
    decreases b, 0
  {
    b == [] || (StmtTyped(b[0]) && BlockTyped(b[1..]))
  }

  /** What C has to look like for that: numbers where numbers are needed, only booleans where
      something moves out of a right operand, and nothing to move out of c ? y : z's arms. */
  predicate Typed(e: Expr) {
    match e
    case Number(_) => true
    case Var(_) => true
    case Unary(op, a) => Typed(a) && (op == Not || NeedFixBool(a))
    case Paren(a) => Typed(a)
    case Binary(op, l, r) =>
      && Typed(l) && Typed(r) && NeedFixBool(l) == NeedFixBool(r)
      && (NeedFixBool(l) || op in {EqEq, NotEq})
    case AndAnd(l, r) => Typed(l) && Typed(r) && (Moves(r) ==> !NeedFixBool(r))
    case OrOr(l, r) => Typed(l) && Typed(r) && (Moves(r) ==> !NeedFixBool(r))
    case Cond(c, y, z) =>
      Typed(c) && Typed(y) && Typed(z) && NeedFixBool(y) && NeedFixBool(z) && !Moves(y) && !Moves(z)
    case Assign(_, _, r) => Typed(r) && NeedFixBool(r)
    case IncDec(_, _, _) => true
    case SideEffectFunc(_, _, _, _) => false
  }

  predicate Valued(x: Expr, num: bool) {
    if num then IsNum(x) else IsBool(x)
  }

  predicate PiecesTyped(h: Hoisted, ptr: Name -> bool) {
    && Valued(FixAll(h.e, ptr), NeedFixBool(h.e))
    && BlockTyped(FixBlock(h.before, ptr)) && BlockTyped(FixBlock(h.after, ptr))
  }

  lemma {:induction false} NumNeedsFix(e: Expr)
    ensures IsNum(e) ==> NeedFixBool(e)
    ensures IsBool(e) ==> !NeedFixBool(e)
  {
    if e.Paren? {
      NumNeedsFix(e.e);
    }
  }

  /** After fixing, the type is decided by whether a comparison was needed. */
  lemma {:induction false} FixedKind(x: Expr, ptr: Name -> bool)
    ensures IsNum(FixAll(x, ptr)) <==> Valued(FixAll(x, ptr), NeedFixBool(x)) && NeedFixBool(x)
    ensures IsBool(FixAll(x, ptr)) <==> Valued(FixAll(x, ptr), NeedFixBool(x)) && !NeedFixBool(x)
  {
    FixedShape(x, ptr);
    NumNeedsFix(FixAll(x, ptr));
  }

  lemma {:induction false} OperandTyped(x: Expr, ptr: Name -> bool)
    ensures IsBool(FixedOperand(x, FixAll(x, ptr), ptr)) <==> Valued(FixAll(x, ptr), NeedFixBool(x))
  {
    if NeedFixBool(x) {
      var a, zero := FixAll(x, ptr), Nothing(if x.Paren? then x.e else x, ptr);
      assert IsNum(zero) && !IsBool(zero);
    }
  }

  lemma {:induction false} TypedAppend(a: seq<Stmt>, b: seq<Stmt>, ptr: Name -> bool)
    ensures BlockTyped(FixBlock(a + b, ptr)) <==> BlockTyped(FixBlock(a, ptr)) && BlockTyped(FixBlock(b, ptr))
  {
    if a == [] {
      assert a + b == b;
    } else {
      TypedAppend(a[1..], b, ptr);
      assert (a + b)[1..] == a[1..] + b;
      TypedFirst(a, ptr);
      TypedFirst(a + b, ptr);
    }
  }

  lemma {:induction false} TypedFirst(b: seq<Stmt>, ptr: Name -> bool)
    requires b != []
    ensures BlockTyped(FixBlock(b, ptr)) <==> StmtTyped(FixStmt(b[0], ptr)) && BlockTyped(FixBlock(b[1..], ptr))
  {
    assert FixBlock(b, ptr)[1..] == FixBlock(b[1..], ptr);
  }

  lemma {:induction false} TypedOne(st: Stmt, ptr: Name -> bool)
    ensures BlockTyped(FixBlock([st], ptr)) <==> StmtTyped(FixStmt(st, ptr))
  {
    TypedFirst([st], ptr);
    assert [st][1..] == [];
  }

  /** Main result: what is made of a C expression has the types Go wants exactly when the
      expression is typed. */
  lemma {:induction false} HoistTyped(x: Expr, noAfter: bool, g: nat, ptr: Name -> bool)
    requires FromC(x)
    ensures PiecesTyped(Hoist(x, false, noAfter, g), ptr) <==> Typed(x)
    decreases x, 1
  {
    match x
    case Number(_) =>
    case Var(_) =>
    case Unary(op, a) =>
      HoistTyped(a, noAfter, g, ptr);
      HoistShape(a, noAfter, g);
      UnaryTyped(op, Hoist(a, false, noAfter, g), ptr);
    case Paren(a) => HoistTyped(a, noAfter, g, ptr);
    case Binary(op, l, r) =>
      var hl := Hoist(l, false, noAfter, g);
      var hr := Hoist(r, false, noAfter, hl.gen);
      HoistTyped(l, noAfter, g, ptr);
      HoistTyped(r, noAfter, hl.gen, ptr);
      HoistShape(l, noAfter, g);
      HoistShape(r, noAfter, hl.gen);
      BinaryTyped(op, hl, hr, ptr);
    case AndAnd(l, r) => ShortTyped(x, l, r, noAfter, g, ptr);
    case OrOr(l, r) => ShortTyped(x, l, r, noAfter, g, ptr);
    case Cond(c, y, z) =>
      var hc := Hoist(c, false, true, g);
      var hy := Hoist(y, false, false, hc.gen);
      HoistTyped(c, true, g, ptr);
      HoistTyped(y, false, hc.gen, ptr);
      HoistTyped(z, false, hy.gen, ptr);
      CondTyped(c, y, z, g, ptr);
    case Assign(op, v, r) =>
      var h := Hoist(r, false, noAfter, g);
      HoistTyped(r, noAfter, g, ptr);
      HoistShape(r, noAfter, g);
      FixedKind(h.e, ptr);
      TypedOne(ExprStmt(Assign(op, v, h.e)), ptr);
      TypedAppend(h.before, [ExprStmt(Assign(op, v, h.e))], ptr);
    case IncDec(_, inc, v) => StepTyped(inc, v, Tmp(g), ptr);
  }

  lemma {:induction false} StepTyped(inc: bool, v: Name, t: Name, ptr: Name -> bool)
    ensures var save, step := ExprStmt(Assign(ColonEq, t, Var(v))), ExprStmt(IncDec(false, inc, v));
            BlockTyped(FixBlock([step], ptr)) && BlockTyped(FixBlock([save, step], ptr))
  {
    var save, step := ExprStmt(Assign(ColonEq, t, Var(v))), ExprStmt(IncDec(false, inc, v));
    assert FixStmt(step, ptr) == step;
    assert FixAll(Assign(ColonEq, t, Var(v)), ptr) == Assign(ColonEq, t, Var(v)) by {
      assert FixAll(Var(v), ptr) == Var(v);
    }
    assert IsNum(Var(v));
    TypedOne(step, ptr);
    TypedFirst([save, step], ptr);
    assert [save, step][1..] == [step];
  }

  lemma {:induction false} UnaryTyped(op: UnOp, h: Hoisted, ptr: Name -> bool)
    ensures PiecesTyped(h.(e := Unary(op, h.e)), ptr) <==> PiecesTyped(h, ptr) && (op == Not || NeedFixBool(h.e))
  {
    FixedKind(h.e, ptr);
    OperandTyped(h.e, ptr);
  }

  lemma {:induction false} BinaryTyped(op: BinOp, hl: Hoisted, hr: Hoisted, ptr: Name -> bool)
    ensures PiecesTyped(Hoisted(Binary(op, hl.e, hr.e), hl.before + hr.before, hl.after + hr.after, hr.gen), ptr) <==>
            && PiecesTyped(hl, ptr) && PiecesTyped(hr, ptr) && NeedFixBool(hl.e) == NeedFixBool(hr.e)
            && (NeedFixBool(hl.e) || op in {EqEq, NotEq})
  {
    FixedKind(hl.e, ptr);
    FixedKind(hr.e, ptr);
    TypedAppend(hl.before, hr.before, ptr);
    TypedAppend(hl.after, hr.after, ptr);
  }

  /** A right operand, with what has to move in a function literal. */
  lemma {:induction false} RightTyped(r: Expr, g: nat, ptr: Name -> bool)
    requires FromC(r)
    ensures var h := Hoist(r, false, false, g);
            var w := Wrapped("bool", h);
            IsBool(FixedOperand(w, FixAll(w, ptr), ptr)) <==> PiecesTyped(h, ptr) && (Moves(r) ==> !NeedFixBool(r))
  {
    var h := Hoist(r, false, false, g);
    MovesIff(r, false, g);
    HoistShape(r, false, g);
    FixedKind(h.e, ptr);
    OperandTyped(h.e, ptr);
  }

  lemma {:induction false} ShortTyped(x: Expr, l: Expr, r: Expr, noAfter: bool, g: nat, ptr: Name -> bool)
    requires (x == AndAnd(l, r) || x == OrOr(l, r)) && FromC(x)
    ensures PiecesTyped(Hoist(x, false, noAfter, g), ptr) <==> Typed(x)
    decreases x, 0
  {
    var hl := Hoist(l, false, true, g);
    HoistTyped(l, true, g, ptr);
    HoistTyped(r, false, hl.gen, ptr);
    OperandTyped(hl.e, ptr);
    RightTyped(r, hl.gen, ptr);
  }

  /** An arm of a conditional is a number, and no literal. */
  lemma {:induction false} ArmTyped(y: Expr, g: nat, ptr: Name -> bool)
    requires FromC(y)
    ensures var h := Hoist(y, false, false, g);
            IsNum(FixAll(Wrapped("unknown", h), ptr)) <==> PiecesTyped(h, ptr) && NeedFixBool(y) && !Moves(y)
  {
    var h := Hoist(y, false, false, g);
    MovesIff(y, false, g);
    HoistShape(y, false, g);
    FixedKind(h.e, ptr);
  }

  lemma {:induction false} CondTyped(c: Expr, y: Expr, z: Expr, g: nat, ptr: Name -> bool)
    requires FromC(c) && FromC(y) && FromC(z)
    requires var hc := Hoist(c, false, true, g);
             var hy := Hoist(y, false, false, hc.gen);
             && (PiecesTyped(hc, ptr) <==> Typed(c)) && (PiecesTyped(hy, ptr) <==> Typed(y))
             && (PiecesTyped(Hoist(z, false, false, hy.gen), ptr) <==> Typed(z))
    ensures PiecesTyped(Hoist(Cond(c, y, z), false, false, g), ptr) <==> Typed(Cond(c, y, z))
  {
    var hc := Hoist(c, false, true, g);
    var hy := Hoist(y, false, false, hc.gen);
    var hz := Hoist(z, false, false, hy.gen);
    var t := Tmp(hz.gen);
    var st := Choice(t, hc.e, Wrapped("unknown", hy), Wrapped("unknown", hz));
    ArmTyped(y, hc.gen, ptr);
    ArmTyped(z, hy.gen, ptr);
    OperandTyped(hc.e, ptr);
    ChoiceTyped(t, hc.e, Wrapped("unknown", hy), Wrapped("unknown", hz), ptr);
    TypedOne(st, ptr);
    TypedFirst([DeclStmt(t), st], ptr);
    assert [DeclStmt(t), st][1..] == [st];
    TypedAppend(hc.before, [DeclStmt(t), st], ptr);
    NothingBehind(c, false, g);
  }

  lemma {:induction false} ChoiceTyped(t: Name, c: Expr, y: Expr, z: Expr, ptr: Name -> bool)
    ensures StmtTyped(FixStmt(Choice(t, c, y, z), ptr)) <==>
            IsBool(FixedOperand(c, FixAll(c, ptr), ptr)) && IsNum(FixAll(y, ptr)) && IsNum(FixAll(z, ptr))
  {
    assert FixStmt(ExprStmt(Assign(Set, t, y)), ptr) == ExprStmt(Assign(Set, t, FixAll(y, ptr)));
    assert FixStmt(ExprStmt(Assign(Set, t, z)), ptr) == ExprStmt(Assign(Set, t, FixAll(z, ptr)));
  }

  // ----- whole statements -----

  /** What Go makes of the statement h.e between h.before and h.after: statements of the right
      types, and every temporary declared once, before it is mentioned, and read. */
  ghost predicate StatementAccepted(h: Hoisted, ptr: Name -> bool, known: set<Name>, g: nat) {
    && StmtTyped(FixStmt(ExprStmt(h.e), ptr))
    && BlockTyped(FixBlock(h.before, ptr)) && BlockTyped(FixBlock(h.after, ptr))
    && Proper(FixedPieces(h, ptr), known, g)
  }

  /** An expression statement becomes Go exactly when it is typed and assigns or counts. */
  lemma {:induction false} StatementIsGo(e: Expr, g: nat, ptr: Name -> bool, known: set<Name>)
    requires FromC(e) && ExprScoped(e, known) && Unused(known, g)
    ensures StatementAccepted(Hoist(e, true, false, g), ptr, known, g) <==> Typed(e) && (e.Assign? || e.IncDec?)
  {
    HoistProper(e, true, false, g, known);
    FixedProper(Hoist(e, true, false, g), ptr, known, g);
    if e.Assign? {
      HoistTyped(e.r, false, g, ptr);
      HoistShape(e.r, false, g);
      FixedKind(Hoist(e.r, false, false, g).e, ptr);
    } else if e.IncDec? {
      assert FixAll(IncDec(false, e.inc, e.x), ptr) == IncDec(false, e.inc, e.x);
    } else {
      HoistLeavesResidual(e, false, g);
      assert Hoist(e, true, false, g) == Hoist(e, false, false, g);
    }
  }

  // ----- declarations -----

  /** Every name is still there, in the expression or in front of it. */
  lemma {:induction false} NamesKept(x: Expr, stmt: bool, noAfter: bool, g: nat)
    requires FromC(x)
    ensures var h := Hoist(x, stmt, noAfter, g); Names(x) <= Names(h.e) + BlockNames(h.before)
    decreases x, 1
  {
    match x
    case Number(_) =>
    case Var(_) =>
    case Unary(_, a) => NamesKept(a, false, noAfter, g);
    case Paren(a) => NamesKept(a, false, noAfter, g);
    case Binary(_, l, r) =>
      var hl := Hoist(l, false, noAfter, g);
      NamesKept(l, false, noAfter, g);
      NamesKept(r, false, noAfter, hl.gen);
      NamesAppend(hl.before, Hoist(r, false, noAfter, hl.gen).before);
    case AndAnd(l, r) => NamesKept(l, false, true, g); ArmNames("bool", r, Hoist(l, false, true, g).gen);
    case OrOr(l, r) => NamesKept(l, false, true, g); ArmNames("bool", r, Hoist(l, false, true, g).gen);
    case Cond(c, y, z) =>
      var hc := Hoist(c, false, true, g);
      var hy := Hoist(y, false, false, hc.gen);
      var hz := Hoist(z, false, false, hy.gen);
      var t, y', z' := Tmp(hz.gen), Wrapped("unknown", hy), Wrapped("unknown", hz);
      NamesKept(c, false, true, g);
      ArmNames("unknown", y, hc.gen);
      ArmNames("unknown", z, hy.gen);
      ChoiceFootprint(t, hc.e, y', z');
      NamesAppend(hc.before, [DeclStmt(t), Choice(t, hc.e, y', z')]);
    case Assign(op, v, r) =>
      var h := Hoist(r, false, noAfter, g);
      NamesKept(r, false, noAfter, g);
      NamesOne(ExprStmt(Assign(op, v, h.e)));
      NamesAppend(h.before, [ExprStmt(Assign(op, v, h.e))]);
    case IncDec(_, inc, v) => IncDecFootprint(inc, v, Tmp(g));
  }

  lemma {:induction false} ArmNames(text: string, r: Expr, g: nat)
    requires FromC(r)
    ensures Names(r) <= Names(Wrapped(text, Hoist(r, false, false, g)))
    decreases r, 2
  {
    NamesKept(r, false, false, g);
  }

  /** What Go makes of v := h.e behind h.before and in front of h.after: a number, typed
      statements, every temporary declared once, before it is mentioned, and read, and no mention
      of v where it is not declared yet. */
  ghost predicate DeclAccepted(v: Name, h: Hoisted, ptr: Name -> bool, known: set<Name>, g: nat) {
    && IsNum(FixAll(h.e, ptr)) && BlockTyped(FixBlock(h.before, ptr)) && BlockTyped(FixBlock(h.after, ptr))
    && Proper(FixedPieces(h, ptr), known, g)
    && v !in Names(h.e) && v !in BlockNames(h.before)
  }

  /** Main result for declarations: what is made of int v = e is Go, with every name meaning
      what it meant, exactly when e is typed, a number, no assignment or increment at its top,
      and does not mention v. */
  lemma {:induction false} DeclIsGo(v: Name, e: Expr, g: nat, ptr: Name -> bool, known: set<Name>)
    requires FromC(e) && WellSequenced(e) && Unused({v}, g) && ExprScoped(e, known) && Unused(known, g)
    ensures DeclAccepted(v, Hoist(e, true, false, g), ptr, known, g) <==>
            Typed(e) && NeedFixBool(e) && !e.Assign? && !e.IncDec? && v !in Names(e)
  {
    var h := Hoist(e, true, false, g);
    HoistProper(e, true, false, g, known);
    FixedProper(h, ptr, known, g);
    NamesKept(e, true, false, g);
    HoistFootprint(e, true, false, g);
    assert v !in Temps(g, h.gen);
    if !e.Assign? && !e.IncDec? {
      assert h == Hoist(e, false, false, g);
      HoistTyped(e, false, g, ptr);
      HoistShape(e, false, g);
      FixedKind(h.e, ptr);
    }
  }

  /** The declaration in Go's scopes: d is another variable v, declared outside, and the store
      is the one in the scope of the new v. Also what becomes of the other one. */
  ghost function RunScoped(v: Name, h: Hoisted, t: Store, d: int, o: Ops): (Store, int) {
    var (x, t1) := Eval(h.e, Exec(h.before, t[v := d], o), o);
    (Exec(h.after, t1[v := x], o), t1[v])
  }

  /** Fixing conditions changes nothing of that. */
  lemma {:induction false} FixedRuns(v: Name, h: Hoisted, ptr: Name -> bool, t: Store, d: int, o: Ops)
    requires Plain(o) && v != NIL && NilStays(BlockWrites(h.before) + Writes(h.e) + BlockWrites(h.after), t)
    ensures RunScoped(v, FixedPieces(h, ptr), t, d, o) == RunScoped(v, h, t, d, o)
  {
    var u := t[v := d];
    FixBlockMeans(h.before, u, o, ptr);
    BlockWritesOnly(h.before, u, o);
    var t0 := Exec(h.before, u, o);
    FixAllMeans(h.e, t0, o, ptr);
    WritesOnly(h.e, t0, o);
    var (x, t1) := Eval(h.e, t0, o);
    FixBlockMeans(h.after, t1[v := x], o, ptr);
  }

  /** Pieces that do not mention v leave another v alone, and run as if there were none. */
  lemma {:induction false} ScopedRuns(v: Name, h: Hoisted, t: Store, d: int, o: Ops)
    requires v !in Names(h.e) && v !in BlockNames(h.before) && v !in BlockNames(h.after)
    ensures var (x, t1) := RunHoisted(h, t[v := d], o);
            RunScoped(v, h, t, d, o) == (t1[v := x], d)
  {
    var u := t[v := d];
    BlockWritesOnly(h.before, u, o);
    BlockWritesAreNames(h.before);
    var t0 := Exec(h.before, u, o);
    WritesOnly(h.e, t0, o);
    WritesAreNames(h.e);
    var (x, t1) := Eval(h.e, t0, o);
    BlockThenStore(h.after, v, x, t1, o);
  }

  /** The same but for v and the temporaries numbered g and up. */
  ghost predicate SameBeside(s: Store, t: Store, v: Name, g: nat) {
    forall x: Name :: x != v && (x.Tmp? ==> x.n < g) ==> s[x] == t[x]
  }

  /** A variable that is not mentioned makes no difference. */
  lemma {:induction false} EvalBeside(e: Expr, v: Name, s: Store, t: Store, g: nat, o: Ops)
    requires Unused(Names(e), g) && v !in Names(e) && SameBeside(s, t, v, g)
    ensures Eval(e, s, o).0 == Eval(e, t, o).0 && SameBeside(Eval(e, s, o).1, Eval(e, t, o).1, v, g)
  {
    ReadsOnly(e, s, t, o);
  }

  lemma {:induction false} PiecesBesideMean(e: Expr, h: Hoisted, v: Name, s: Store, t: Store, g: nat, o: Ops)
    requires Unused(Names(e), g) && v !in Names(e) && SameBeside(s, t, v, g) && Means(h, e, g, t, o)
    ensures Eval(e, s, o).0 == RunHoisted(h, t, o).0 && SameBeside(Eval(e, s, o).1, RunHoisted(h, t, o).1, v, g)
  {
    EvalBeside(e, v, s, t, g, o);
  }

  /** When it is accepted, the new v gets the value it has in C, whatever was in it before, and
      a v declared outside stays as it was. */
  lemma {:induction false} AcceptedMeans(v: Name, e: Expr, g: nat, ptr: Name -> bool, known: set<Name>, s: Store,
                                         t: Store, j: int, d: int, o: Ops)
    requires FromC(e) && WellSequenced(e) && Unused(Names(e) + {v}, g) && SameBelow(s, t, g)
    requires ExprScoped(e, known) && Unused(known, g)
    requires DeclAccepted(v, Hoist(e, true, false, g), ptr, known, g)
    requires Plain(o) && v != NIL && NilStays(Writes(e), t)
    ensures var (x, s1) := Eval(e, s[v := j], o);
            var (t1, d1) := RunScoped(v, FixedPieces(Hoist(e, true, false, g), ptr), t, d, o);
            d1 == d && SameBelow(s1[v := x], t1, g)
  {
    var h := Hoist(e, true, false, g);
    DeclIsGo(v, e, g, ptr, known);
    PiecesBeside(v, e, g, t);
    FixedRuns(v, h, ptr, t, d, o);
    ScopedMeans(v, e, g, s, t, j, d, o);
  }

  lemma {:induction false} ScopedMeans(v: Name, e: Expr, g: nat, s: Store, t: Store, j: int, d: int, o: Ops)
    requires WellSequenced(e) && Unused(Names(e), g) && v !in Names(e) && SameBelow(s, t, g)
    requires var h := Hoist(e, false, false, g);
             v !in Names(h.e) && v !in BlockNames(h.before) && v !in BlockNames(h.after)
    ensures var (x, s1) := Eval(e, s[v := j], o);
            var (t1, d1) := RunScoped(v, Hoist(e, false, false, g), t, d, o);
            d1 == d && SameBelow(s1[v := x], t1, g)
  {
    var h := Hoist(e, false, false, g);
    ScopedRuns(v, h, t, d, o);
    HoistMeans(e, false, false, g, t[v := d], o);
    PiecesBesideMean(e, h, v, s[v := j], t[v := d], g, o);
    SetBoth(Eval(e, s[v := j], o).1, RunHoisted(h, t[v := d], o).1, v, Eval(e, s[v := j], o).0, g);
  }

  lemma {:induction false} SetBoth(a: Store, b: Store, v: Name, x: int, g: nat)
    requires SameBeside(a, b, v, g)
    ensures SameBelow(a[v := x], b[v := x], g)
  {
  }

  lemma {:induction false} PiecesBeside(v: Name, e: Expr, g: nat, t: Store)
    requires WellSequenced(e) && Unused({v}, g) && v !in Names(e) && !e.Assign? && !e.IncDec?
    requires NilStays(Writes(e), t)
    ensures var h := Hoist(e, true, false, g);
            && h == Hoist(e, false, false, g)
            && v !in Names(h.e) && v !in BlockNames(h.before) && v !in BlockNames(h.after)
            && NilStays(BlockWrites(h.before) + Writes(h.e) + BlockWrites(h.after), t)
  {
    var h := Hoist(e, false, false, g);
    HoistFootprint(e, false, false, g);
    WritesAreNames(e);
    BlockWritesAreNames(h.after);
    assert NIL !in Temps(g, h.gen) && v !in Temps(g, h.gen);
  }

  /** int x = (x = 3) + 1 is fine in C; Go assigns 3 to another x. */
  lemma {:induction false} OuterChanged(g: nat, ptr: Name -> bool, t: Store, d: int, o: Ops)
    ensures var x := User("x");
            var e := Binary(Add, Paren(Assign(Set, x, Number(3))), Number(1));
            var h := Hoist(e, true, false, g);
            && FromC(e) && WellSequenced(e) && Typed(e) && NeedFixBool(e) && Residual(h.e)
            && !DeclAccepted(x, h, ptr, {}, g) && RunScoped(x, h, t, d, o).1 == 3
  {
    var x := User("x");
    var e := Binary(Add, Paren(Assign(Set, x, Number(3))), Number(1));
    SelfAssigned(x, g);
    DeclIsGo(x, e, g, ptr, {});
    FirstAssigned(x, 3, Hoist(e, true, false, g), t, d, o);
  }

  lemma {:induction false} SelfAssigned(x: Name, g: nat)
    requires x.User?
    ensures var a := Assign(Set, x, Number(3));
            var e := Binary(Add, Paren(a), Number(1));
            var h := Hoist(e, true, false, g);
            && FromC(e) && ExprScoped(e, {}) && WellSequenced(e) && Typed(e) && NeedFixBool(e) && x in Names(e)
            && Residual(h.e) && h.before == [ExprStmt(a)] && Writes(h.e) == {}
  {
    var a := Assign(Set, x, Number(3));
    var e := Binary(Add, Paren(a), Number(1));
    var h := Hoist(e, true, false, g);
    assert Hoist(a, false, false, g) == Hoisted(Var(x), [ExprStmt(a)], [], g) by {
      assert Hoist(Number(3), false, false, g) == Hoisted(Number(3), [], [], g);
    }
    var p := Hoist(Paren(a), false, false, g);
    assert p == Hoisted(Paren(Var(x)), [ExprStmt(a)], [], g);
    assert Hoist(Number(1), false, false, g) == Hoisted(Number(1), [], [], g);
    assert Last(Number(3)) == {} && Typed(Number(3)) && Writes(Var(x)) == {} && NeedFixBool(Number(3));
    assert FromC(a) && ExprScoped(a, {}) && WellSequenced(a) && Typed(a) && NeedFixBool(a);
    assert x in Names(a) && Names(Number(1)) == {} && Writes(Number(1)) == {};
    assert h == Hoisted(Binary(Add, p.e, Number(1)), p.before + [], p.after + [], g);
  }

  lemma {:induction false} FirstAssigned(x: Name, n: int, h: Hoisted, t: Store, d: int, o: Ops)
    requires h.before == [ExprStmt(Assign(Set, x, Number(n)))] && x !in Writes(h.e)
    ensures RunScoped(x, h, t, d, o).1 == n
  {
    var u := t[x := d];
    ExecOne(ExprStmt(Assign(Set, x, Number(n))), u, o);
    assert Eval(Number(n), u, o) == (n, u);
    WritesOnly(h.e, Exec(h.before, u, o), o);
  }
}
