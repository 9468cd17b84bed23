/** Printing C expressions as Go, whose operators have other precedences. */
module Printer {
  import opened Common

  datatype UnOp = Minus | Plus | Not | Twid | Addr | Indir
  datatype BinOp =
    | Mul | Div | Mod | And | AndNot | Lsh | Rsh
    | Add | Sub | Or | Xor
    | EqEq | NotEq | Lt | LtEq | Gt | GtEq
    | AndAnd | OrOr

  /** C expressions, with the parentheses the programmer wrote. */
  datatype Expr =
    | Name(id: string)
    | Number(text: string)
    | Unary(uop: UnOp, e: Expr)
    | Binary(bop: BinOp, l: Expr, r: Expr)
    | Index(a: Expr, i: Expr)
    | Dot(a: Expr, field: string)
    | Arrow(a: Expr, field: string)
    | Paren(e: Expr)

  // ----- the tables -----

  const PREC_NONE := 0
  const PREC_ARROW := 1
  const PREC_ADDR := 2
  const PREC_MUL := 3
  const PREC_ADD := 4
  const PREC_CMP := 5
  const PREC_AND_AND := 6
  const PREC_OR_OR := 7
  const PREC_LOW := 9

  function BinPrec(op: BinOp): nat {
    match op
    case Mul => PREC_MUL
    case Div => PREC_MUL
    case Mod => PREC_MUL
    case And => PREC_MUL
    case AndNot => PREC_MUL
    case Lsh => PREC_MUL
    case Rsh => PREC_MUL
    case Add => PREC_ADD
    case Sub => PREC_ADD
    case Or => PREC_ADD
    case Xor => PREC_ADD
    case AndAnd => PREC_AND_AND
    case OrOr => PREC_OR_OR
    case _ => PREC_CMP
  }

  function OpPrec(x: Expr): nat {
    match x
    case Name(_) => PREC_NONE
    case Number(_) => PREC_NONE
    case Unary(_, _) => PREC_ADDR
    case Binary(op, _, _) => BinPrec(op)
    case Index(_, _) => PREC_ARROW
    case Dot(_, _) => PREC_ARROW
    case Arrow(_, _) => PREC_ARROW
    case Paren(_) => PREC_LOW
  }

  function BinStr(op: BinOp): string {
    match op
    case Mul => "*"
    case Div => "/"
    case Mod => "%"
    case And => "&"
    case AndNot => "&^"
    case Lsh => "<<"
    case Rsh => ">>"
    case Add => "+"
    case Sub => "-"
    case Or => "|"
    case Xor => "^"
    case EqEq => "=="
    case NotEq => "!="
    case Lt => "<"
    case LtEq => "<="
    case Gt => ">"
    case GtEq => ">="
    case AndAnd => "&&"
    case OrOr => "||"
  }

  function UnStr(op: UnOp): string {
    match op
    case Minus => "-"
    case Plus => "+"
    case Not => "!"
    case Twid => "^"
    case Addr => "&"
    case Indir => "*"
  }

  // ----- printing -----

  datatype Piece = Word(s: string) | Digits(s: string) | Op(s: string) | LPar | RPar | LBrack | RBrack | Period | Space

  /** The precedence the operand of a unary operator is printed at: lower, to force
      parentheses, when the operator is repeated. */
  function OperandPrec(op: UnOp, x: Expr): nat {
    if (op == Plus || op == Minus || op == Addr) && x.Unary? && x.uop == op then PREC_ADDR - 1 else PREC_ADDR
  }

  function Pieces(x: Expr, prec: nat): seq<Piece>
    decreases x, 1
  {
    if prec < OpPrec(x) then [LPar] + Body(x) + [RPar] else Body(x)
  }

  function Body(x: Expr): seq<Piece>
    decreases x, 0
  {
    match x
    case Name(id) => [Word(id)]
    case Number(text) => [Digits(text)]
    case Unary(op, a) => [Op(UnStr(op))] + Pieces(a, OperandPrec(op, a))
    case Binary(op, l, r) =>
      Pieces(l, BinPrec(op)) + [Space, Op(BinStr(op)), Space] + Pieces(r, BinPrec(op) - 1)
    case Index(a, i) => Pieces(a, PREC_ARROW) + [LBrack] + Pieces(i, PREC_LOW) + [RBrack]
    case Dot(a, f) => Pieces(a, PREC_ARROW) + [Period, Word(f)]
    case Arrow(a, f) => Pieces(a, PREC_ARROW) + [Period, Word(f)]
    case Paren(a) => Pieces(a, PREC_LOW)
  }

  class Printer {
    var buf: seq<Piece>

    constructor ()
      ensures buf == []
    {
      buf := [];
    }

    method Emit(p: Piece)
      modifies this
      ensures buf == old(buf) + [p]
    {
      buf := buf + [p];
    }

    method PrintExpr(x: Expr, prec: nat)
      modifies this
      ensures buf == old(buf) + Pieces(x, prec)
      decreases x, 1
    {
      var newPrec := OpPrec(x);
      if prec < newPrec {
        Emit(LPar);
        PrintBody(x, newPrec);
        Emit(RPar);
        Regroup(old(buf), [LPar], Body(x), [RPar]);
      } else {
        PrintBody(x, newPrec);
      }
    }

    method PrintBody(x: Expr, newPrec: nat)
      requires newPrec == OpPrec(x)
      modifies this
      ensures buf == old(buf) + Body(x)
      decreases x, 0
    {
      match x
      case Name(id) => Emit(Word(id));
      case Number(text) => Emit(Digits(text));
      case Unary(op, a) =>
        var prec := newPrec;
        if (op == Plus || op == Minus || op == Addr) && a.Unary? && a.uop == op {
          prec := prec - 1;
        }
        Emit(Op(UnStr(op)));
        PrintExpr(a, prec);
        Regroup(old(buf), [Op(UnStr(op))], Pieces(a, prec), []);
      case Binary(op, l, r) =>
        PrintExpr(l, newPrec);
        EmitOperator(BinStr(op));
        PrintExpr(r, newPrec - 1);
        Regroup(old(buf), Pieces(l, newPrec), [Space, Op(BinStr(op)), Space], Pieces(r, newPrec - 1));
      case Index(a, i) =>
        PrintExpr(a, newPrec);
        Emit(LBrack);
        PrintExpr(i, PREC_LOW);
        Regroup(old(buf), Pieces(a, newPrec), [LBrack], Pieces(i, PREC_LOW));
        Emit(RBrack);
        Regroup(old(buf), Pieces(a, newPrec) + [LBrack] + Pieces(i, PREC_LOW), [RBrack], []);
      case Dot(a, f) =>
        PrintExpr(a, newPrec);
        EmitField(f);
        Regroup(old(buf), Pieces(a, newPrec), [Period, Word(f)], []);
      case Arrow(a, f) =>
        PrintExpr(a, newPrec);
        EmitField(f);
        Regroup(old(buf), Pieces(a, newPrec), [Period, Word(f)], []);
      case Paren(a) => PrintExpr(a, newPrec);
    }

    method EmitOperator(s: string)
      modifies this
      ensures buf == old(buf) + [Space, Op(s), Space]
    {
      Emit(Space);
      Emit(Op(s));
      Emit(Space);
    }

    method EmitField(f: string)
      modifies this
      ensures buf == old(buf) + [Period, Word(f)]
    {
      Emit(Period);
      Emit(Word(f));
    }
  }

  lemma {:induction false} Regroup(was: seq<Piece>, a: seq<Piece>, b: seq<Piece>, c: seq<Piece>)
    ensures was + a + b + c == was + (a + b + c)
    ensures c == [] ==> was + a + b == was + (a + b)
  {
    assert c == [] ==> was + a + b == was + (a + b);
  }

  /** The pieces without the spaces: what a scanner makes of them. */
  function Tokens(ps: seq<Piece>): seq<Piece> {
    if ps == [] then []
    else Tokens(ps[..|ps| - 1]) + if ps[|ps| - 1] == Space then [] else [ps[|ps| - 1]]
  }

  // ----- Go's grammar of expressions -----

  /** Go expressions: no parentheses, one kind of selector. */
  datatype Go =
    | Ident(id: string)
    | Lit(text: string)
    | Un(op: string, e: Go)
    | Bin(op: string, l: Go, r: Go)
    | Idx(a: Go, i: Go)
    | Sel(a: Go, field: string)

  function GoPrec(s: string): nat {
    if s == "||" then 1
    else if s == "&&" then 2
    else if s in {"==", "!=", "<", "<=", ">", ">="} then 3
    else if s in {"+", "-", "|", "^"} then 4
    else if s in {"*", "/", "%", "<<", ">>", "&", "&^"} then 5
    else 0
  }

  predicate GoUnary(s: string) {
    s in {"+", "-", "!", "^", "*", "&"}
  }

  type Parsed = Option<(Go, seq<Piece>)>

  /** Operators that bind at least as tightly as level p, left to right. */
  function ParseBinary(ts: seq<Piece>, p: nat): (r: Parsed)
    requires p >= 1
    ensures r.Some? ==> |r.value.1| < |ts|
    decreases |ts|, 3
  {
    var r := ParseUnary(ts);
    if r.None? then None else BinaryLoop(r.value.0, r.value.1, p)
  }

  function BinaryLoop(x: Go, ts: seq<Piece>, p: nat): (r: Parsed)
    requires p >= 1
    ensures r.Some? ==> |r.value.1| <= |ts|
    decreases |ts|, 0
  {
    if ts != [] && ts[0].Op? && GoPrec(ts[0].s) >= p then
      var r := ParseBinary(ts[1..], GoPrec(ts[0].s) + 1);
      if r.None? then None else BinaryLoop(Bin(ts[0].s, x, r.value.0), r.value.1, p)
    else Some((x, ts))
  }

  function ParseUnary(ts: seq<Piece>): (r: Parsed)
    ensures r.Some? ==> |r.value.1| < |ts|
    decreases |ts|, 2
  {
    if ts != [] && ts[0].Op? && GoUnary(ts[0].s) then
      var r := ParseUnary(ts[1..]);
      if r.None? then None else Some((Un(ts[0].s, r.value.0), r.value.1))
    else ParsePrimary(ts)
  }

  function ParsePrimary(ts: seq<Piece>): (r: Parsed)
    ensures r.Some? ==> |r.value.1| < |ts|
    decreases |ts|, 1
  {
    if ts == [] then None
    else
      match ts[0]
      case Word(id) => Postfix(Ident(id), ts[1..])
      case Digits(text) => Postfix(Lit(text), ts[1..])
      case LPar =>
        var r := ParseBinary(ts[1..], 1);
        if r.None? || r.value.1 == [] || r.value.1[0] != RPar then None
        else Postfix(r.value.0, r.value.1[1..])
      case _ => None
  }

  function Postfix(x: Go, ts: seq<Piece>): (r: Parsed)
    ensures r.Some? ==> |r.value.1| <= |ts|
    decreases |ts|, 0
  {
    if ts != [] && ts[0] == LBrack then
      var r := ParseBinary(ts[1..], 1);
      if r.None? || r.value.1 == [] || r.value.1[0] != RBrack then None
      else Postfix(Idx(x, r.value.0), r.value.1[1..])
    else if |ts| > 1 && ts[0] == Period && ts[1].Word? then Postfix(Sel(x, ts[1].s), ts[2..])
    else Some((x, ts))
  }

  function ParseGo(ts: seq<Piece>): Option<Go> {
    var r := ParseBinary(ts, 1);
    if r.Some? && r.value.1 == [] then Some(r.value.0) else None
  }

  /** What the C expression means in Go. */
  function Meaning(x: Expr): Go {
    match x
    case Name(id) => Ident(id)
    case Number(text) => Lit(text)
    case Unary(op, a) => Un(UnStr(op), Meaning(a))
    case Binary(op, l, r) => Bin(BinStr(op), Meaning(l), Meaning(r))
    case Index(a, i) => Idx(Meaning(a), Meaning(i))
    case Dot(a, f) => Sel(Meaning(a), f)
    case Arrow(a, f) => Sel(Meaning(a), f)
    case Paren(a) => Meaning(a)
  }

  // ----- tokens of the printed text -----

  lemma {:induction false} TokensAppend(a: seq<Piece>, b: seq<Piece>)
    ensures Tokens(a + b) == Tokens(a) + Tokens(b)
  {
    if b == [] {
      assert a + b == a;
    } else {
      TokensAppend(a, b[..|b| - 1]);
      assert (a + b)[..|a + b| - 1] == a + b[..|b| - 1];
    }
  }

  lemma {:induction false} TokensOne(p: Piece)
    ensures Tokens([p]) == if p == Space then [] else [p]
  {
    assert [p][..0] == [];
  }

  function Toks(x: Expr, prec: nat): seq<Piece>
    decreases x, 1
  {
    if prec < OpPrec(x) then [LPar] + BodyToks(x) + [RPar] else BodyToks(x)
  }

  function BodyToks(x: Expr): seq<Piece>
    decreases x, 0
  {
    match x
    case Name(id) => [Word(id)]
    case Number(text) => [Digits(text)]
    case Unary(op, a) => [Op(UnStr(op))] + Toks(a, OperandPrec(op, a))
    case Binary(op, l, r) => Toks(l, BinPrec(op)) + [Op(BinStr(op))] + Toks(r, BinPrec(op) - 1)
    case Index(a, i) => Toks(a, PREC_ARROW) + [LBrack] + Toks(i, PREC_LOW) + [RBrack]
    case Dot(a, f) => Toks(a, PREC_ARROW) + [Period, Word(f)]
    case Arrow(a, f) => Toks(a, PREC_ARROW) + [Period, Word(f)]
    case Paren(a) => Toks(a, PREC_LOW)
  }

  lemma {:induction false} TokensOfPieces(x: Expr, prec: nat)
    ensures Tokens(Pieces(x, prec)) == Toks(x, prec)
    decreases x, 1
  {
    TokensOfBody(x);
    TokensInParens(Body(x));
  }

  lemma {:induction false} TokensInParens(ps: seq<Piece>)
    ensures Tokens([LPar] + ps + [RPar]) == [LPar] + Tokens(ps) + [RPar]
  {
    TokensOne(LPar);
    TokensOne(RPar);
    TokensAppend([LPar], ps);
    TokensAppend([LPar] + ps, [RPar]);
  }

  lemma {:induction false} TokensInBrackets(a: seq<Piece>, i: seq<Piece>)
    ensures Tokens(a + [LBrack] + i + [RBrack]) == Tokens(a) + [LBrack] + Tokens(i) + [RBrack]
  {
    TokensOne(LBrack);
    TokensOne(RBrack);
    TokensAppend(a, [LBrack]);
    TokensAppend(a + [LBrack], i);
    TokensAppend(a + [LBrack] + i, [RBrack]);
  }

  lemma {:induction false} TokensAround(l: seq<Piece>, s: string, r: seq<Piece>)
    ensures Tokens(l + [Space, Op(s), Space] + r) == Tokens(l) + [Op(s)] + Tokens(r)
  {
    SpacedOperator(s);
    TokensAppend(l, [Space, Op(s), Space]);
    TokensAppend(l + [Space, Op(s), Space], r);
  }

  lemma {:induction false} TokensOfBody(x: Expr)
    ensures Tokens(Body(x)) == BodyToks(x)
    decreases x, 0
  {
    match x
    case Name(id) => TokensOne(Word(id));
    case Number(text) => TokensOne(Digits(text));
    case Unary(op, a) =>
      TokensOfPieces(a, OperandPrec(op, a));
      TokensOne(Op(UnStr(op)));
      TokensAppend([Op(UnStr(op))], Pieces(a, OperandPrec(op, a)));
    case Binary(op, l, r) =>
      var k := BinPrec(op);
      TokensOfPieces(l, k);
      TokensOfPieces(r, k - 1);
      TokensAround(Pieces(l, k), BinStr(op), Pieces(r, k - 1));
    case Index(a, i) =>
      TokensOfPieces(a, PREC_ARROW);
      TokensOfPieces(i, PREC_LOW);
      TokensInBrackets(Pieces(a, PREC_ARROW), Pieces(i, PREC_LOW));
    case Dot(a, f) =>
      TokensOfPieces(a, PREC_ARROW);
      FieldTokens(f);
      TokensAppend(Pieces(a, PREC_ARROW), [Period, Word(f)]);
    case Arrow(a, f) =>
      TokensOfPieces(a, PREC_ARROW);
      FieldTokens(f);
      TokensAppend(Pieces(a, PREC_ARROW), [Period, Word(f)]);
    case Paren(a) => TokensOfPieces(a, PREC_LOW);
  }

  lemma {:induction false} SpacedOperator(s: string)
    ensures Tokens([Space, Op(s), Space]) == [Op(s)]
  {
    TokensOne(Space);
    TokensOne(Op(s));
    TokensAppend([Space], [Op(s)]);
    TokensAppend([Space] + [Op(s)], [Space]);
    assert [Space] + [Op(s)] + [Space] == [Space, Op(s), Space];
  }

  lemma {:induction false} FieldTokens(f: string)
    ensures Tokens([Period, Word(f)]) == [Period, Word(f)]
  {
    TokensOne(Period);
    TokensOne(Word(f));
    TokensAppend([Period], [Word(f)]);
    assert [Period] + [Word(f)] == [Period, Word(f)];
  }

  // ----- parsing the tokens back -----

  /** The tokens that follow do not extend a primary expression, nor, by an operator that
      binds tighter than level p, a binary one. */
  predicate Stops(rest: seq<Piece>, p: int) {
    rest == [] || (rest[0] != LBrack && rest[0] != Period && (rest[0].Op? ==> GoPrec(rest[0].s) <= p))
  }

  lemma {:induction false} PrecsAgree(op: BinOp)
    ensures GoPrec(BinStr(op)) == 8 - BinPrec(op) && PREC_MUL <= BinPrec(op) <= PREC_OR_OR
  {
  }

  lemma {:induction false} UnariesAgree(op: UnOp)
    ensures GoUnary(UnStr(op))
  {
  }

  lemma {:induction false} LoopStops(x: Go, rest: seq<Piece>, p: nat, q: int)
    requires p >= 1 && Stops(rest, q) && q < p
    ensures BinaryLoop(x, rest, p) == Some((x, rest))
  {
  }

  /** A name, a number, a selection, an index, or anything in parentheses. */
  lemma {:induction false} ParsesPrimary(x: Expr, rest: seq<Piece>)
    ensures ParsePrimary(Toks(x, PREC_ARROW) + rest) == Postfix(Meaning(x), rest)
    ensures Toks(x, PREC_ARROW) != [] && !Toks(x, PREC_ARROW)[0].Op?
    decreases x, (if PREC_ARROW < OpPrec(x) then 10 else 0) + 3
  {
    match x
    case Name(id) => Head(Word(id), [], rest);
    case Number(text) => Head(Digits(text), [], rest);
    case Unary(_, _) => ParsesParens(x, rest);
    case Binary(op, _, _) =>
      PrecsAgree(op);
      ParsesParens(x, rest);
    case Paren(_) => ParsesParens(x, rest);
    case Index(a, i) =>
      ParsesPrimary(a, [LBrack] + (Toks(i, PREC_LOW) + ([RBrack] + rest)));
      ParsesBinary(i, PREC_LOW, 1, [RBrack] + rest);
      LoopStops(Meaning(i), [RBrack] + rest, 1, 0);
      IndexRead(Toks(a, PREC_ARROW), Toks(i, PREC_LOW), Meaning(a), Meaning(i), rest);
    case Dot(a, f) =>
      ParsesPrimary(a, [Period, Word(f)] + rest);
      ParsesField(x, a, f, rest);
    case Arrow(a, f) =>
      ParsesPrimary(a, [Period, Word(f)] + rest);
      ParsesField(x, a, f, rest);
  }

  lemma {:induction false} IndexRead(left: seq<Piece>, mid: seq<Piece>, x: Go, y: Go, rest: seq<Piece>)
    requires ParsePrimary(left + ([LBrack] + (mid + ([RBrack] + rest)))) ==
        Postfix(x, [LBrack] + (mid + ([RBrack] + rest)))
    requires ParseBinary(mid + ([RBrack] + rest), 1) == Some((y, [RBrack] + rest))
    ensures ParsePrimary(left + [LBrack] + mid + [RBrack] + rest) == Postfix(Idx(x, y), rest)
  {
    var after := [LBrack] + (mid + ([RBrack] + rest));
    assert left + [LBrack] + mid + [RBrack] + rest == left + after;
    assert after[1..] == mid + ([RBrack] + rest);
    assert ([RBrack] + rest)[1..] == rest;
  }

  lemma {:induction false} ParsesField(x: Expr, a: Expr, f: string, rest: seq<Piece>)
    ensures Postfix(Meaning(a), [Period, Word(f)] + rest) == Postfix(Sel(Meaning(a), f), rest)
    ensures Toks(a, PREC_ARROW) + [Period, Word(f)] + rest == Toks(a, PREC_ARROW) + ([Period, Word(f)] + rest)
  {
    assert ([Period, Word(f)] + rest)[2..] == rest;
  }

  lemma {:induction false} Head(p: Piece, ts: seq<Piece>, rest: seq<Piece>)
    ensures ([p] + ts + rest)[0] == p && ([p] + ts + rest)[1..] == ts + rest
    ensures ([p] + rest)[0] == p && ([p] + rest)[1..] == rest
  {
    assert ([p] + ts + rest)[1..] == ts + rest;
  }

  /** An expression printed in parentheses. */
  lemma {:induction false} ParsesParens(x: Expr, rest: seq<Piece>)
    requires OpPrec(x) > PREC_ARROW
    ensures ParsePrimary(Toks(x, PREC_ARROW) + rest) == Postfix(Meaning(x), rest)
    ensures Toks(x, PREC_ARROW) != [] && Toks(x, PREC_ARROW)[0] == LPar
    ensures ParsePrimary([LPar] + BodyToks(x) + [RPar] + rest) == Postfix(Meaning(x), rest)
    decreases x, 12
  {
    var inner := [RPar] + rest;
    ParsesBinary(x, OpPrec(x), 1, inner);
    LoopStops(Meaning(x), inner, 1, 0);
    assert Toks(x, OpPrec(x)) == BodyToks(x);
    var all := [LPar] + BodyToks(x) + [RPar] + rest;
    assert all[1..] == BodyToks(x) + inner;
    assert inner[1..] == rest;
  }

  /** Anything printed so that no binary operator shows. */
  lemma {:induction false} ParsesUnary(x: Expr, prec: nat, rest: seq<Piece>)
    requires PREC_ARROW <= prec && (prec < OpPrec(x) || OpPrec(x) <= PREC_ADDR) && Stops(rest, 8)
    ensures ParseUnary(Toks(x, prec) + rest) == Some((Meaning(x), rest))
    decreases x, (if prec < OpPrec(x) then 10 else 0) + 4
  {
    if prec < OpPrec(x) {
      ParsesParens(x, rest);
    } else if x.Unary? {
      var op, a := x.uop, x.e;
      var c := OperandPrec(op, a);
      UnariesAgree(op);
      if a.Binary? {
        PrecsAgree(a.bop);
      }
      ParsesUnary(a, c, rest);
      Head(Op(UnStr(op)), Toks(a, c), rest);
    } else {
      ParsesPrimary(x, rest);
      assert Toks(x, prec) == Toks(x, PREC_ARROW);
    }
  }

  /** A left operand, an operator of level p or tighter, and its right operand. */
  lemma {:induction false} OperatorRead(left: seq<Piece>, s: string, right: seq<Piece>, x: Go, y: Go, p: nat,
                                        rest: seq<Piece>)
    requires 1 <= p <= GoPrec(s)
    requires ParseBinary(left + ([Op(s)] + (right + rest)), p) == BinaryLoop(x, [Op(s)] + (right + rest), p)
    requires ParseBinary(right + rest, GoPrec(s) + 1) == Some((y, rest))
    ensures ParseBinary(left + [Op(s)] + right + rest, p) == BinaryLoop(Bin(s, x, y), rest, p)
  {
    var after := [Op(s)] + (right + rest);
    assert left + [Op(s)] + right + rest == left + after;
    assert after[1..] == right + rest;
  }

  lemma {:induction false} OperatorStops(op: BinOp, rest: seq<Piece>)
    ensures Stops([Op(BinStr(op))] + rest, 8 - BinPrec(op))
  {
    PrecsAgree(op);
  }

  /** Main step: parsing at level p reads the printed expression, and goes on from there. */
  lemma {:induction false} ParsesBinary(x: Expr, prec: nat, p: nat, rest: seq<Piece>)
    requires PREC_ADDR <= prec && 1 <= p && (p == 1 || p <= 8 - prec) && Stops(rest, 8 - prec)
    ensures ParseBinary(Toks(x, prec) + rest, p) == BinaryLoop(Meaning(x), rest, p)
    decreases x, (if prec < OpPrec(x) then 10 else 0) + 5
  {
    if x.Binary? && BinPrec(x.bop) <= prec {
      PrecsAgree(x.bop);
      ParsesOperation(x, p, rest);
    } else if x.Paren? && PREC_LOW <= prec {
      ParsesBinary(x.e, PREC_LOW, p, rest);
    } else {
      ParsesUnary(x, prec, rest);
    }
  }

  lemma {:induction false} ParsesOperation(x: Expr, p: nat, rest: seq<Piece>)
    requires x.Binary? && 1 <= p <= 8 - BinPrec(x.bop) && Stops(rest, 8 - BinPrec(x.bop))
    ensures ParseBinary(BodyToks(x) + rest, p) == BinaryLoop(Meaning(x), rest, p)
    decreases x, 4
  {
    var op, k := x.bop, BinPrec(x.bop);
    var left, right := Toks(x.l, k), Toks(x.r, k - 1);
    PrecsAgree(op);
    OperatorStops(op, right + rest);
    ParsesBinary(x.l, k, p, [Op(BinStr(op))] + (right + rest));
    ParsesBinary(x.r, k - 1, 8 - k + 1, rest);
    LoopStops(Meaning(x.r), rest, 8 - k + 1, 8 - k);
    OperatorRead(left, BinStr(op), right, Meaning(x.l), Meaning(x.r), p, rest);
  }

  /** Main result: Go reads the printed text as the C expression without its parentheses. */
  lemma {:induction false} RoundTrip(x: Expr, prec: nat)
    requires prec >= PREC_ADDR
    ensures ParseGo(Tokens(Pieces(x, prec))) == Some(Meaning(x))
  {
    TokensOfPieces(x, prec);
    ParsesBinary(x, prec, 1, []);
    assert Toks(x, prec) + [] == Toks(x, prec);
  }

  /** Equal texts have equal meanings. */
  lemma {:induction false} TextDecidesMeaning(x: Expr, y: Expr)
    requires Pieces(x, PREC_LOW) == Pieces(y, PREC_LOW)
    ensures Meaning(x) == Meaning(y)
  {
    RoundTrip(x, PREC_LOW);
    RoundTrip(y, PREC_LOW);
  }

  // ----- what the text computes -----

  /** What names, numbers and operations stand for, whatever it is: `deref` is what C writes *p
      and p->f begins with, and Go writes *p and, of a pointer, p.f. */
  datatype Domain<!V> = Domain(name: string -> V, number: string -> V, binary: (BinOp, V, V) -> V,
                               neg: V -> V, plus: V -> V, not: V -> V, complement: V -> V, address: V -> V,
                               deref: V -> V, index: (V, V) -> V, field: (V, string) -> V, pointer: V -> bool)

  /** What C makes of the expression. */
  function CValue<V>(x: Expr, d: Domain<V>): V {
    match x
    case Name(id) => d.name(id)
    case Number(text) => d.number(text)
    case Unary(op, a) =>
      var v := CValue(a, d);
      (match op
       case Minus => d.neg(v)
       case Plus => d.plus(v)
       case Not => d.not(v)
       case Twid => d.complement(v)
       case Addr => d.address(v)
       case Indir => d.deref(v))
    case Binary(op, l, r) => d.binary(op, CValue(l, d), CValue(r, d))
    case Index(a, i) => d.index(CValue(a, d), CValue(i, d))
    case Dot(a, f) => d.field(CValue(a, d), f)
    case Arrow(a, f) => d.field(d.deref(CValue(a, d)), f)
    case Paren(a) => CValue(a, d)
  }

  /** C's types: . is for structures and -> for pointers to them. */
  predicate Selects<V>(x: Expr, d: Domain<V>) {
    match x
    case Name(_) => true
    case Number(_) => true
    case Unary(_, a) => Selects(a, d)
    case Binary(_, l, r) => Selects(l, d) && Selects(r, d)
    case Index(a, i) => Selects(a, d) && Selects(i, d)
    case Dot(a, _) => Selects(a, d) && !d.pointer(CValue(a, d))
    case Arrow(a, _) => Selects(a, d) && d.pointer(CValue(a, d))
    case Paren(a) => Selects(a, d)
  }

  /** The binary operators of Go, by what C calls them; &^ clears bits. */
  function GoBinary(s: string): Option<BinOp> {
    if s == "+" then Some(Add)
    else if s == "-" then Some(Sub)
    else if s == "*" then Some(Mul)
    else if s == "/" then Some(Div)
    else if s == "%" then Some(Mod)
    else if s == "&" then Some(And)
    else if s == "|" then Some(Or)
    else if s == "^" then Some(Xor)
    else if s == "&^" then Some(AndNot)
    else if s == "<<" then Some(Lsh)
    else if s == ">>" then Some(Rsh)
    else if s == "==" then Some(EqEq)
    else if s == "!=" then Some(NotEq)
    else if s == "<" then Some(Lt)
    else if s == "<=" then Some(LtEq)
    else if s == ">" then Some(Gt)
    else if s == ">=" then Some(GtEq)
    else if s == "&&" then Some(AndAnd)
    else if s == "||" then Some(OrOr)
    else None
  }

  /** What Go makes of it; None when there is no such operator. */
  function GoValue<V>(g: Go, d: Domain<V>): Option<V> {
    match g
    case Ident(id) => Some(d.name(id))
    case Lit(text) => Some(d.number(text))
    case Un(op, a) =>
      var v := GoValue(a, d);
      if v.None? then None
      else if op == "-" then Some(d.neg(v.value))
      else if op == "+" then Some(d.plus(v.value))
      else if op == "!" then Some(d.not(v.value))
      else if op == "^" then Some(d.complement(v.value))
      else if op == "&" then Some(d.address(v.value))
      else if op == "*" then Some(d.deref(v.value))
      else None
    case Bin(op, l, r) =>
      var v, w, o := GoValue(l, d), GoValue(r, d), GoBinary(op);
      if v.None? || w.None? || o.None? then None else Some(d.binary(o.value, v.value, w.value))
    case Idx(a, i) =>
      var v, w := GoValue(a, d), GoValue(i, d);
      if v.None? || w.None? then None else Some(d.index(v.value, w.value))
    case Sel(a, f) =>
      var v := GoValue(a, d);
      if v.None? then None
      else Some(d.field(if d.pointer(v.value) then d.deref(v.value) else v.value, f))
  }

  lemma {:induction false} OperatorsAgree(op: BinOp)
    ensures GoBinary(BinStr(op)) == Some(op)
  {
  }

  lemma {:induction false} MeaningKept<V>(x: Expr, d: Domain<V>)
    requires Selects(x, d)
    ensures GoValue(Meaning(x), d) == Some(CValue(x, d))
  {
    match x
    case Name(_) =>
    case Number(_) =>
    case Unary(_, a) => MeaningKept(a, d);
    case Binary(op, l, r) =>
      MeaningKept(l, d);
      MeaningKept(r, d);
      OperatorsAgree(op);
    case Index(a, i) => MeaningKept(a, d); MeaningKept(i, d);
    case Dot(a, _) => MeaningKept(a, d);
    case Arrow(a, _) => MeaningKept(a, d);
    case Paren(a) => MeaningKept(a, d);
  }

  /** Main result: Go computes from the printed text what C computes from the expression,
      whatever the operations are. */
  lemma {:induction false} PrintedMeans<V>(x: Expr, prec: nat, d: Domain<V>)
    requires prec >= PREC_ADDR && Selects(x, d)
    ensures var g := ParseGo(Tokens(Pieces(x, prec)));
            g.Some? && GoValue(g.value, d) == Some(CValue(x, d))
  {
    RoundTrip(x, prec);
    MeaningKept(x, d);
  }

  // ----- scanning -----

  /** Written next to each other, a scanner that takes the longest operator would take the
      start of t into s. */
  predicate Merges(s: string, t: string)
    requires t != ""
  {
    s + t[..1] in {"++", "+=", "--", "-=", "*=", "/=", "%=", "&&", "&^", "&=", "|=", "||", "^=", "<<", "<=", "<-",
                   ">>", ">=", "==", "!="}
  }

  predicate Clash(p: Piece, q: Piece) {
    (p.Op? && q.Op? && q.s != "" && Merges(p.s, q.s)) || (p.Digits? && q == Period)
  }

  /** The scanner finds the pieces as they were printed. */
  ghost predicate Scans(ps: seq<Piece>) {
    forall i :: 0 <= i < |ps| - 1 ==> !Clash(ps[i], ps[i + 1])
  }

  /** No & of a ~, and no member of a number: neither is C. */
  predicate Clean(x: Expr) {
    match x
    case Name(_) => true
    case Number(_) => true
    case Unary(op, a) => Clean(a) && !(op == Addr && a.Unary? && a.uop == Twid)
    case Binary(_, l, r) => Clean(l) && Clean(r)
    case Index(a, i) => Clean(a) && Clean(i)
    case Dot(a, _) => Clean(a) && !a.Number?
    case Arrow(a, _) => Clean(a) && !a.Number?
    case Paren(a) => Clean(a)
  }

  lemma {:induction false} ScansAppend(a: seq<Piece>, b: seq<Piece>)
    requires a != [] && b != []
    ensures Scans(a + b) <==> Scans(a) && Scans(b) && !Clash(a[|a| - 1], b[0])
  {
    var c := a + b;
    if Scans(c) {
      forall i | 0 <= i < |a| - 1 ensures !Clash(a[i], a[i + 1]) {
        assert c[i] == a[i] && c[i + 1] == a[i + 1];
      }
      forall i | 0 <= i < |b| - 1 ensures !Clash(b[i], b[i + 1]) {
        assert c[|a| + i] == b[i] && c[|a| + i + 1] == b[i + 1];
      }
      assert c[|a| - 1] == a[|a| - 1] && c[|a| - 1 + 1] == b[0];
    }
    if Scans(a) && Scans(b) && !Clash(a[|a| - 1], b[0]) {
      forall i | 0 <= i < |c| - 1 ensures !Clash(c[i], c[i + 1]) {
        if i < |a| - 1 {
          assert !Clash(a[i], a[i + 1]);
        } else if i >= |a| {
          assert !Clash(b[i - |a|], b[i - |a| + 1]);
        }
      }
    }
  }

  /** What the text of an operand begins and ends with. */
  lemma {:induction false} OperandEnds(x: Expr, prec: nat)
    requires PREC_ARROW <= prec
    ensures var ps := Pieces(x, prec);
            && ps != []
            && (prec <= PREC_ADDR ==> (ps[0].Op? <==> x.Unary? && prec == PREC_ADDR))
            && (prec <= PREC_ADDR && ps[0].Op? ==> ps[0].s == UnStr(x.uop))
            && (prec == PREC_ARROW ==> (ps[|ps| - 1].Digits? <==> x.Number?))
  {
    match x
    case Name(_) =>
    case Number(_) =>
    case Unary(op, a) => OperandEnds(a, OperandPrec(op, a));
    case Binary(op, l, r) =>
      PrecsAgree(op);
      OperandEnds(l, BinPrec(op));
    case Index(a, _) => OperandEnds(a, PREC_ARROW);
    case Dot(a, _) => OperandEnds(a, PREC_ARROW);
    case Arrow(a, _) => OperandEnds(a, PREC_ARROW);
    case Paren(a) => OperandEnds(a, PREC_LOW);
  }

  /** The forced parentheses are exactly what keeps repeated operators apart. */
  lemma {:induction false} UnariesMerge(op: UnOp, a: Expr)
    ensures a.Unary? && OperandPrec(op, a) == PREC_ADDR ==>
              (Merges(UnStr(op), UnStr(a.uop)) <==> op == Addr && a.uop == Twid)
  {
    if a.Unary? {
      var s, t := UnStr(op), UnStr(a.uop);
      assert s + t[..1] == [s[0], t[0]];
    }
  }

  lemma {:induction false} InParens(ps: seq<Piece>)
    requires ps != []
    ensures Scans([LPar] + ps + [RPar]) <==> Scans(ps)
  {
    ScansAppend([LPar], ps);
    ScansAppend([LPar] + ps, [RPar]);
  }

  lemma {:induction false} PrintedScans(x: Expr, prec: nat)
    requires PREC_ARROW <= prec
    ensures Scans(Pieces(x, prec)) <==> Clean(x)
    decreases x, 1
  {
    BodyScans(x);
    if prec < OpPrec(x) {
      OperandEnds(x, OpPrec(x));
      InParens(Body(x));
    }
  }

  lemma {:induction false} BodyScans(x: Expr)
    ensures Scans(Body(x)) <==> Clean(x)
    decreases x, 0
  {
    match x
    case Name(_) =>
    case Number(_) =>
    case Unary(op, a) =>
      var c := OperandPrec(op, a);
      PrintedScans(a, c);
      OperandEnds(a, c);
      UnariesMerge(op, a);
      ScansAppend([Op(UnStr(op))], Pieces(a, c));
    case Binary(op, l, r) =>
      var k := BinPrec(op);
      PrecsAgree(op);
      PrintedScans(l, k);
      PrintedScans(r, k - 1);
      OperandEnds(l, k);
      OperandEnds(r, k - 1);
      ScansAppend(Pieces(l, k), [Space, Op(BinStr(op)), Space]);
      ScansAppend(Pieces(l, k) + [Space, Op(BinStr(op)), Space], Pieces(r, k - 1));
    case Index(a, i) =>
      PrintedScans(a, PREC_ARROW);
      PrintedScans(i, PREC_LOW);
      IndexScans(Pieces(a, PREC_ARROW), Pieces(i, PREC_LOW), a, i);
    case Dot(a, f) =>
      PrintedScans(a, PREC_ARROW);
      FieldScans(a, f);
    case Arrow(a, f) =>
      PrintedScans(a, PREC_ARROW);
      FieldScans(a, f);
    case Paren(a) => PrintedScans(a, PREC_LOW);
  }

  lemma {:induction false} IndexScans(ps: seq<Piece>, qs: seq<Piece>, a: Expr, i: Expr)
    requires ps == Pieces(a, PREC_ARROW) && qs == Pieces(i, PREC_LOW)
    ensures Scans(ps + [LBrack] + qs + [RBrack]) <==> Scans(ps) && Scans(qs)
  {
    OperandEnds(a, PREC_ARROW);
    OperandEnds(i, PREC_LOW);
    ScansAppend(ps, [LBrack]);
    ScansAppend(ps + [LBrack], qs);
    ScansAppend(ps + [LBrack] + qs, [RBrack]);
  }

  lemma {:induction false} FieldScans(a: Expr, f: string)
    ensures Scans(Pieces(a, PREC_ARROW) + [Period, Word(f)]) <==> Scans(Pieces(a, PREC_ARROW)) && !a.Number?
  {
    OperandEnds(a, PREC_ARROW);
    ScansAppend(Pieces(a, PREC_ARROW), [Period, Word(f)]);
  }
}
