/** Expressions and simple statements of the syntax tree that the C-to-Go rewriter
    works on, and what running them means. */
module CTree {

  /** Variables of the program, and the temporaries tmp1, tmp2, ... the rewriter makes up. */
  datatype Name = User(id: string) | Tmp(n: nat)

  datatype UnOp = Minus | Plus | Not | Twid
  datatype BinOp =
    | Add | Sub | Mul | Div | Mod | BitAnd | BitOr | BitXor | Lsh | Rsh
    | EqEq | NotEq | Lt | LtEq | Gt | GtEq
  datatype AssignOp = Set | ColonEq | OpSet(op: BinOp)

  datatype Expr =
    | Number(n: int)
    | Var(x: Name)
    | Unary(uop: UnOp, e: Expr)
    | Binary(bop: BinOp, l: Expr, r: Expr)
    | Paren(e: Expr)
    | AndAnd(l: Expr, r: Expr)
    | OrOr(l: Expr, r: Expr)
    | Cond(c: Expr, y: Expr, z: Expr)
    | Assign(aop: AssignOp, x: Name, r: Expr)
    | IncDec(prefix: bool, inc: bool, x: Name)
    // func() text { block; _r := value; after; return _r }()
    | SideEffectFunc(text: string, block: seq<Stmt>, value: Expr, after: seq<Stmt>)

  datatype Stmt =
    | ExprStmt(e: Expr)
    | DeclStmt(x: Name)
    | IfElse(c: Expr, thn: Stmt, els: Stmt)

  type Store = s: imap<Name, int> | forall x :: x in s ghost witness imap x: Name :: 0

  /** The meaning of the operators, and which operand of a binary operator runs first:
      C leaves that order open, so everything is stated for every choice of it. */
  datatype Ops = Ops(un: (UnOp, int) -> int, bin: (BinOp, int, int) -> int, step: (bool, int) -> int,
                     rightFirst: (BinOp, Expr, Expr) -> bool)

  ghost function Truth(b: bool): int { if b then 1 else 0 }

  /** `!` is logical negation, whatever the other operators are. */
  ghost predicate LogicalNot(o: Ops) {
    forall v :: o.un(Not, v) == Truth(v == 0)
  }

  ghost function Assigned(op: AssignOp, before: int, v: int, o: Ops): int {
    match op
    case Set => v
    case ColonEq => v
    case OpSet(bop) => o.bin(bop, before, v)
  }

  ghost function Eval(e: Expr, s: Store, o: Ops): (int, Store)
    decreases e, 1
  {
    match e
    case Number(n) => (n, s)
    case Var(x) => (s[x], s)
    case Unary(op, a) =>
      var (v, s1) := Eval(a, s, o);
      (o.un(op, v), s1)
    case Paren(a) => Eval(a, s, o)
    case Binary(op, l, r) =>
      if o.rightFirst(op, l, r) then
        var (w, s1) := Eval(r, s, o);
        var (v, s2) := Eval(l, s1, o);
        (o.bin(op, v, w), s2)
      else
        var (v, s1) := Eval(l, s, o);
        var (w, s2) := Eval(r, s1, o);
        (o.bin(op, v, w), s2)
    case AndAnd(l, r) =>
      var (v, s1) := Eval(l, s, o);
      if v == 0 then (0, s1)
      else
        var (w, s2) := Eval(r, s1, o);
        (Truth(w != 0), s2)
    case OrOr(l, r) =>
      var (v, s1) := Eval(l, s, o);
      if v != 0 then (1, s1)
      else
        var (w, s2) := Eval(r, s1, o);
        (Truth(w != 0), s2)
    case Cond(c, y, z) =>
      var (v, s1) := Eval(c, s, o);
      if v != 0 then Eval(y, s1, o) else Eval(z, s1, o)
    case Assign(op, x, r) =>
      var (v, s1) := Eval(r, s, o);
      var w := Assigned(op, s1[x], v, o);
      (w, s1[x := w])
    case IncDec(prefix, inc, x) =>
      var w := o.step(inc, s[x]);
      (if prefix then w else s[x], s[x := w])
    case SideEffectFunc(_, block, value, after) =>
      var (v, s2) := Eval(value, Exec(block, s, o), o);
      (v, Exec(after, s2, o))
  }

  ghost function ExecStmt(st: Stmt, s: Store, o: Ops): Store
    decreases st, 1
  {
    match st
    case ExprStmt(e) => Eval(e, s, o).1
    case DeclStmt(x) => s[x := 0]
    case IfElse(c, thn, els) =>
      var (v, s1) := Eval(c, s, o);
      if v != 0 then ExecStmt(thn, s1, o) else ExecStmt(els, s1, o)
  }

  ghost function Exec(b: seq<Stmt>, s: Store, o: Ops): Store
    decreases b, 0
  {
    if b == [] then s else Exec(b[1..], ExecStmt(b[0], s, o), o)
  }

  // ----- footprints -----

  function Names(e: Expr): set<Name>
    decreases e, 1
  {
    match e
    case Number(_) => {}
    case Var(x) => {x}
    case Unary(_, a) => Names(a)
    case Paren(a) => Names(a)
    case Binary(_, l, r) => Names(l) + Names(r)
    case AndAnd(l, r) => Names(l) + Names(r)
    case OrOr(l, r) => Names(l) + Names(r)
    case Cond(c, y, z) => Names(c) + Names(y) + Names(z)
    case Assign(_, x, r) => {x} + Names(r)
    case IncDec(_, _, x) => {x}
    case SideEffectFunc(_, block, value, after) => BlockNames(block) + Names(value) + BlockNames(after)
  }

  function StmtNames(st: Stmt): set<Name>
    decreases st, 1
  {
    match st
    case ExprStmt(e) => Names(e)
    case DeclStmt(x) => {x}
    case IfElse(c, thn, els) => Names(c) + StmtNames(thn) + StmtNames(els)
  }

  function BlockNames(b: seq<Stmt>): set<Name>
    decreases b, 0
  {
    if b == [] then {} else StmtNames(b[0]) + BlockNames(b[1..])
  }

  /** The variables an expression may modify. */
  function Writes(e: Expr): (w: set<Name>)
    decreases e, 1
  {
    match e
    case Number(_) => {}
    case Var(_) => {}
    case Unary(_, a) => Writes(a)
    case Paren(a) => Writes(a)
    case Binary(_, l, r) => Writes(l) + Writes(r)
    case AndAnd(l, r) => Writes(l) + Writes(r)
    case OrOr(l, r) => Writes(l) + Writes(r)
    case Cond(c, y, z) => Writes(c) + Writes(y) + Writes(z)
    case Assign(_, x, r) => {x} + Writes(r)
    case IncDec(_, _, x) => {x}
    case SideEffectFunc(_, block, value, after) => BlockWrites(block) + Writes(value) + BlockWrites(after)
  }

  function StmtWrites(st: Stmt): set<Name>
    decreases st, 1
  {
    match st
    case ExprStmt(e) => Writes(e)
    case DeclStmt(x) => {x}
    case IfElse(c, thn, els) => Writes(c) + StmtWrites(thn) + StmtWrites(els)
  }

  function BlockWrites(b: seq<Stmt>): set<Name>
    decreases b, 0
  {
    if b == [] then {} else StmtWrites(b[0]) + BlockWrites(b[1..])
  }

  // ----- what running can change, and what it depends on -----

  ghost predicate Kept(w: set<Name>, s: Store, t: Store) {
    forall x :: x !in w ==> s[x] == t[x]
  }

  ghost predicate AgreeOn(n: set<Name>, s: Store, t: Store) {
    forall x :: x in n ==> s[x] == t[x]
  }

  /** Wherever s and t agree, so do s' and t'. */
  ghost predicate AgreementKept(s: Store, t: Store, s': Store, t': Store) {
    forall x :: s[x] == t[x] ==> s'[x] == t'[x]
  }

  lemma {:induction false} WritesOnly(e: Expr, s: Store, o: Ops)
    ensures Kept(Writes(e), s, Eval(e, s, o).1)
    decreases e, 1
  {
    match e
    case Number(_) =>
    case Var(_) =>
    case Unary(_, a) => WritesOnly(a, s, o);
    case Paren(a) => WritesOnly(a, s, o);
    case Binary(op, l, r) =>
      if o.rightFirst(op, l, r) {
        WritesOnly(r, s, o);
        WritesOnly(l, Eval(r, s, o).1, o);
      } else {
        WritesOnly(l, s, o);
        WritesOnly(r, Eval(l, s, o).1, o);
      }
    case AndAnd(l, r) =>
      WritesOnly(l, s, o);
      WritesOnly(r, Eval(l, s, o).1, o);
    case OrOr(l, r) =>
      WritesOnly(l, s, o);
      WritesOnly(r, Eval(l, s, o).1, o);
    case Cond(c, y, z) =>
      WritesOnly(c, s, o);
      WritesOnly(y, Eval(c, s, o).1, o);
      WritesOnly(z, Eval(c, s, o).1, o);
    case Assign(_, x, r) => WritesOnly(r, s, o);
    case IncDec(_, _, _) =>
    case SideEffectFunc(_, block, value, after) =>
      BlockWritesOnly(block, s, o);
      var s1 := Exec(block, s, o);
      WritesOnly(value, s1, o);
      BlockWritesOnly(after, Eval(value, s1, o).1, o);
  }

  lemma {:induction false} StmtWritesOnly(st: Stmt, s: Store, o: Ops)
    ensures Kept(StmtWrites(st), s, ExecStmt(st, s, o))
    decreases st, 1
  {
    match st
    case ExprStmt(e) => WritesOnly(e, s, o);
    case DeclStmt(_) =>
    case IfElse(c, thn, els) =>
      WritesOnly(c, s, o);
      StmtWritesOnly(thn, Eval(c, s, o).1, o);
      StmtWritesOnly(els, Eval(c, s, o).1, o);
  }

  lemma {:induction false} BlockWritesOnly(b: seq<Stmt>, s: Store, o: Ops)
    ensures Kept(BlockWrites(b), s, Exec(b, s, o))
    decreases b, 0
  {
    if b != [] {
      StmtWritesOnly(b[0], s, o);
      BlockWritesOnly(b[1..], ExecStmt(b[0], s, o), o);
    }
  }

  lemma {:induction false} ReadsOnly(e: Expr, s: Store, t: Store, o: Ops)
    requires AgreeOn(Names(e), s, t)
    ensures Eval(e, s, o).0 == Eval(e, t, o).0
    ensures AgreementKept(s, t, Eval(e, s, o).1, Eval(e, t, o).1)
    decreases e, 1
  {
    match e
    case Number(_) =>
    case Var(_) =>
    case Unary(_, a) => ReadsOnly(a, s, t, o);
    case Paren(a) => ReadsOnly(a, s, t, o);
    case Binary(_, _, _) => BinaryReadsOnly(e, s, t, o);
    case AndAnd(l, r) =>
      ReadsOnly(l, s, t, o);
      if Eval(l, s, o).0 != 0 {
        ReadsOnly(r, Eval(l, s, o).1, Eval(l, t, o).1, o);
      }
    case OrOr(l, r) =>
      ReadsOnly(l, s, t, o);
      if Eval(l, s, o).0 == 0 {
        ReadsOnly(r, Eval(l, s, o).1, Eval(l, t, o).1, o);
      }
    case Cond(c, y, z) =>
      ReadsOnly(c, s, t, o);
      if Eval(c, s, o).0 != 0 {
        ReadsOnly(y, Eval(c, s, o).1, Eval(c, t, o).1, o);
      } else {
        ReadsOnly(z, Eval(c, s, o).1, Eval(c, t, o).1, o);
      }
    case Assign(_, x, r) => ReadsOnly(r, s, t, o);
    case IncDec(_, _, _) =>
    case SideEffectFunc(_, block, value, after) =>
      BlockReadsOnly(block, s, t, o);
      var s1, t1 := Exec(block, s, o), Exec(block, t, o);
      ReadsOnly(value, s1, t1, o);
      BlockReadsOnly(after, Eval(value, s1, o).1, Eval(value, t1, o).1, o);
  }

  lemma {:induction false} BinaryReadsOnly(e: Expr, s: Store, t: Store, o: Ops)
    requires e.Binary? && AgreeOn(Names(e), s, t)
    ensures Eval(e, s, o).0 == Eval(e, t, o).0
    ensures AgreementKept(s, t, Eval(e, s, o).1, Eval(e, t, o).1)
    decreases e, 0
  {
    if o.rightFirst(e.bop, e.l, e.r) {
      ReadsOnly(e.r, s, t, o);
      ReadsOnly(e.l, Eval(e.r, s, o).1, Eval(e.r, t, o).1, o);
    } else {
      ReadsOnly(e.l, s, t, o);
      ReadsOnly(e.r, Eval(e.l, s, o).1, Eval(e.l, t, o).1, o);
    }
  }

  lemma {:induction false} StmtReadsOnly(st: Stmt, s: Store, t: Store, o: Ops)
    requires AgreeOn(StmtNames(st), s, t)
    ensures AgreementKept(s, t, ExecStmt(st, s, o), ExecStmt(st, t, o))
    decreases st, 1
  {
    match st
    case ExprStmt(e) => ReadsOnly(e, s, t, o);
    case DeclStmt(_) =>
    case IfElse(c, thn, els) =>
      ReadsOnly(c, s, t, o);
      StmtReadsOnly(thn, Eval(c, s, o).1, Eval(c, t, o).1, o);
      StmtReadsOnly(els, Eval(c, s, o).1, Eval(c, t, o).1, o);
  }

  lemma {:induction false} BlockReadsOnly(b: seq<Stmt>, s: Store, t: Store, o: Ops)
    requires AgreeOn(BlockNames(b), s, t)
    ensures AgreementKept(s, t, Exec(b, s, o), Exec(b, t, o))
    decreases b, 0
  {
    if b != [] {
      StmtReadsOnly(b[0], s, t, o);
      BlockReadsOnly(b[1..], ExecStmt(b[0], s, o), ExecStmt(b[0], t, o), o);
    }
  }

  // ----- sequences of statements, and what may change places -----

  lemma {:induction false} ExecAppend(a: seq<Stmt>, b: seq<Stmt>, s: Store, o: Ops)
    ensures Exec(a + b, s, o) == Exec(b, Exec(a, s, o), o)
  {
    if a == [] {
      assert a + b == b;
    } else {
      ExecAppend(a[1..], b, ExecStmt(a[0], s, o), o);
      assert (a + b)[1..] == a[1..] + b;
    }
  }

  lemma {:induction false} ExecOne(st: Stmt, s: Store, o: Ops)
    ensures Exec([st], s, o) == ExecStmt(st, s, o)
  {
    assert [st][1..] == [];
  }

  lemma {:induction false} NamesAppend(a: seq<Stmt>, b: seq<Stmt>)
    ensures BlockNames(a + b) == BlockNames(a) + BlockNames(b)
    ensures BlockWrites(a + b) == BlockWrites(a) + BlockWrites(b)
  {
    if a == [] {
      assert a + b == b;
    } else {
      NamesAppend(a[1..], b);
      assert (a + b)[1..] == a[1..] + b;
    }
  }

  lemma {:induction false} NamesOne(st: Stmt)
    ensures BlockNames([st]) == StmtNames(st)
    ensures BlockWrites([st]) == StmtWrites(st)
  {
    assert [st][1..] == [];
  }

  lemma {:induction false} WritesAreNames(e: Expr)
    ensures Writes(e) <= Names(e)
    decreases e, 1
  {
    match e
    case Number(_) =>
    case Var(_) =>
    case Unary(_, a) => WritesAreNames(a);
    case Paren(a) => WritesAreNames(a);
    case Binary(_, l, r) => WritesAreNames(l); WritesAreNames(r);
    case AndAnd(l, r) => WritesAreNames(l); WritesAreNames(r);
    case OrOr(l, r) => WritesAreNames(l); WritesAreNames(r);
    case Cond(c, y, z) => WritesAreNames(c); WritesAreNames(y); WritesAreNames(z);
    case Assign(_, _, r) => WritesAreNames(r);
    case IncDec(_, _, _) =>
    case SideEffectFunc(_, block, value, after) =>
      BlockWritesAreNames(block);
      WritesAreNames(value);
      BlockWritesAreNames(after);
  }

  lemma {:induction false} StmtWritesAreNames(st: Stmt)
    ensures StmtWrites(st) <= StmtNames(st)
    decreases st, 1
  {
    match st
    case ExprStmt(e) => WritesAreNames(e);
    case DeclStmt(_) =>
    case IfElse(c, thn, els) =>
      WritesAreNames(c);
      StmtWritesAreNames(thn);
      StmtWritesAreNames(els);
  }

  lemma {:induction false} BlockWritesAreNames(b: seq<Stmt>)
    ensures BlockWrites(b) <= BlockNames(b)
    decreases b, 0
  {
    if b != [] {
      StmtWritesAreNames(b[0]);
      BlockWritesAreNames(b[1..]);
    }
  }

  /** Two pieces of code change places when each writes nothing the other mentions. */
  ghost predicate Apart(w1: set<Name>, n1: set<Name>, w2: set<Name>, n2: set<Name>) {
    w1 !! n2 && w2 !! n1
  }

  lemma {:induction false} BlockThenEval(b: seq<Stmt>, e: Expr, s: Store, o: Ops)
    requires Apart(BlockWrites(b), BlockNames(b), Writes(e), Names(e))
    ensures Eval(e, Exec(b, s, o), o).0 == Eval(e, s, o).0
    ensures Eval(e, Exec(b, s, o), o).1 == Exec(b, Eval(e, s, o).1, o)
  {
    var sb, se := Exec(b, s, o), Eval(e, s, o).1;
    BlockWritesOnly(b, s, o);
    WritesOnly(e, s, o);
    ReadsOnly(e, s, sb, o);
    BlockReadsOnly(b, s, se, o);
    WritesOnly(e, sb, o);
    BlockWritesOnly(b, se, o);
    BlockWritesAreNames(b);
    WritesAreNames(e);
    var x, y := Eval(e, sb, o).1, Exec(b, se, o);
    forall n: Name ensures x[n] == y[n] {
      if n in BlockWrites(b) {
        assert s[n] == se[n];
        assert sb[n] == y[n] && x[n] == sb[n];
      } else {
        assert s[n] == sb[n];
        assert x[n] == se[n] && y[n] == se[n];
      }
    }
  }

  lemma {:induction false} BlockThenBlock(a: seq<Stmt>, b: seq<Stmt>, s: Store, o: Ops)
    requires Apart(BlockWrites(a), BlockNames(a), BlockWrites(b), BlockNames(b))
    ensures Exec(a, Exec(b, s, o), o) == Exec(b, Exec(a, s, o), o)
  {
    var sb, sa := Exec(b, s, o), Exec(a, s, o);
    BlockWritesOnly(b, s, o);
    BlockWritesOnly(a, s, o);
    BlockReadsOnly(a, s, sb, o);
    BlockReadsOnly(b, s, sa, o);
    BlockWritesOnly(a, sb, o);
    BlockWritesOnly(b, sa, o);
    BlockWritesAreNames(a);
    BlockWritesAreNames(b);
    var x, y := Exec(a, sb, o), Exec(b, sa, o);
    forall n: Name ensures x[n] == y[n] {
      if n in BlockWrites(b) {
        assert s[n] == sa[n];
      } else {
        assert s[n] == sb[n];
      }
    }
  }

  lemma {:induction false} EvalThenEval(l: Expr, r: Expr, s: Store, o: Ops)
    requires Apart(Writes(l), Names(l), Writes(r), Names(r))
    ensures Eval(r, Eval(l, s, o).1, o).0 == Eval(r, s, o).0
    ensures Eval(l, Eval(r, s, o).1, o).0 == Eval(l, s, o).0
    ensures Eval(r, Eval(l, s, o).1, o).1 == Eval(l, Eval(r, s, o).1, o).1
  {
    ExecOne(ExprStmt(l), s, o);
    ExecOne(ExprStmt(r), s, o);
    NamesOne(ExprStmt(l));
    NamesOne(ExprStmt(r));
    BlockThenEval([ExprStmt(l)], r, s, o);
    BlockThenEval([ExprStmt(r)], l, s, o);
    ExecOne(ExprStmt(l), Eval(r, s, o).1, o);
  }

  /** A binary operator whose operands are apart means the same in either order. */
  lemma {:induction false} BinaryLeftFirst(op: BinOp, l: Expr, r: Expr, s: Store, o: Ops)
    requires Apart(Writes(l), Names(l), Writes(r), Names(r))
    ensures Eval(Binary(op, l, r), s, o) ==
            (o.bin(op, Eval(l, s, o).0, Eval(r, Eval(l, s, o).1, o).0), Eval(r, Eval(l, s, o).1, o).1)
  {
    EvalThenEval(l, r, s, o);
  }
}
