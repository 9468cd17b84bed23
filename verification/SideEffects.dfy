/** Moving the side effects of an expression into statements run before and after it. */
module SideEffects {
  import opened CTree

  /** What an expression modifies after its last sequence point. */
  ghost function Last(e: Expr): set<Name> {
    match e
    case Number(_) => {}
    case Var(_) => {}
    case Unary(_, a) => Last(a)
    case Paren(a) => Last(a)
    case Binary(_, l, r) => Last(l) + Last(r)
    case AndAnd(_, r) => Last(r)
    case OrOr(_, r) => Last(r)
    case Cond(_, y, z) => Last(y) + Last(z)
    case Assign(_, x, r) => {x} + Last(r)
    case IncDec(_, _, x) => {x}
    case SideEffectFunc(_, _, _, _) => {}
  }

  /** Section 6.5 paragraph 2 of C99 for call-free, comma-free expressions over plain
      variables: operands that no sequence point separates do not modify what the other
      mentions; the value assigned does not modify the target after its last sequence point,
      or at all when the target is read too. */
  ghost predicate WellSequenced(e: Expr) {
    match e
    case Number(_) => true
    case Var(_) => true
    case Unary(_, a) => WellSequenced(a)
    case Paren(a) => WellSequenced(a)
    case Binary(_, l, r) =>
      WellSequenced(l) && WellSequenced(r) && Apart(Writes(l), Names(l), Writes(r), Names(r))
    case AndAnd(l, r) => WellSequenced(l) && WellSequenced(r)
    case OrOr(l, r) => WellSequenced(l) && WellSequenced(r)
    case Cond(c, y, z) => WellSequenced(c) && WellSequenced(y) && WellSequenced(z)
    case Assign(op, x, r) => WellSequenced(r) && x !in if op.OpSet? then Writes(r) else Last(r)
    case IncDec(_, _, _) => true
    case SideEffectFunc(_, _, value, _) => Residual(value)
  }

  /** What hoisting leaves behind: no assignment, increment or conditional outside the
      function literals it makes. */
  ghost predicate Residual(e: Expr) {
    match e
    case Number(_) => true
    case Var(_) => true
    case Unary(_, a) => Residual(a)
    case Paren(a) => Residual(a)
    case Binary(_, l, r) => Residual(l) && Residual(r)
    case AndAnd(l, r) => Residual(l) && Residual(r)
    case OrOr(l, r) => Residual(l) && Residual(r)
    case Cond(_, _, _) => false
    case Assign(_, _, _) => false
    case IncDec(_, _, _) => false
    case SideEffectFunc(_, _, value, _) => Residual(value)
  }

  /** Temporaries numbered g and up are not used yet. */
  ghost predicate Unused(names: set<Name>, g: nat) {
    forall x :: x in names && x.Tmp? ==> x.n < g
  }

  function Temps(g: nat, h: nat): set<Name> {
    set n | g <= n < h :: Tmp(n)
  }

  /** The expression left, the statements before and after it, and the next temporary. */
  datatype Hoisted = Hoisted(e: Expr, before: seq<Stmt>, after: seq<Stmt>, gen: nat)

  /** What rewriting x yields. `stmt`: x is a whole statement, so its value is not needed.
      `noAfter`: nothing may be moved behind the expression. */
  function Hoist(x: Expr, stmt: bool, noAfter: bool, g: nat): Hoisted {
    match x
    case Number(_) => Hoisted(x, [], [], g)
    case Var(_) => Hoisted(x, [], [], g)
    case Unary(op, a) =>
      var h := Hoist(a, false, noAfter, g);
      h.(e := Unary(op, h.e))
    case Paren(a) =>
      var h := Hoist(a, false, noAfter, g);
      h.(e := Paren(h.e))
    case Binary(op, l, r) =>
      var hl := Hoist(l, false, noAfter, g);
      var hr := Hoist(r, false, noAfter, hl.gen);
      Hoisted(Binary(op, hl.e, hr.e), hl.before + hr.before, hl.after + hr.after, hr.gen)
    case AndAnd(l, r) =>
      var hl := Hoist(l, false, true, g);
      var hr := Hoist(r, false, false, hl.gen);
      Hoisted(AndAnd(hl.e, Wrapped("bool", hr)), hl.before, hl.after, hr.gen)
    case OrOr(l, r) =>
      var hl := Hoist(l, false, true, g);
      var hr := Hoist(r, false, false, hl.gen);
      Hoisted(OrOr(hl.e, Wrapped("bool", hr)), hl.before, hl.after, hr.gen)
    case Cond(c, y, z) =>
      var hc := Hoist(c, false, true, g);
      var hy := Hoist(y, false, false, hc.gen);
      var hz := Hoist(z, false, false, hy.gen);
      HoistedCond(hc, hy, hz)
    case Assign(op, v, r) =>
      var h := Hoist(r, false, noAfter, g);
      var a := Assign(op, v, h.e);
      if stmt then h.(e := a) else h.(e := Var(v), before := h.before + [ExprStmt(a)])
    case IncDec(prefix, inc, v) =>
      var step := IncDec(false, inc, v);
      if stmt then Hoisted(step, [], [], g)
      else if prefix then Hoisted(Var(v), [ExprStmt(step)], [], g)
      else if noAfter then
        Hoisted(Var(Tmp(g)), [ExprStmt(Assign(ColonEq, Tmp(g), Var(v))), ExprStmt(step)], [], g + 1)
      else Hoisted(Var(v), [], [ExprStmt(step)], g)
    case SideEffectFunc(text, block, value, after) =>
      var h := Hoist(value, false, noAfter, g);
      h.(e := SideEffectFunc(text, block, h.e, after))
  }

  /** A conditionally evaluated expression keeps its side effects, inside a function literal. */
  function Wrapped(text: string, h: Hoisted): Expr {
    if h.before == [] && h.after == [] then h.e else SideEffectFunc(text, h.before, h.e, h.after)
  }

  /** if c { t = y } else { t = z } */
  function Choice(t: Name, c: Expr, y: Expr, z: Expr): Stmt {
    IfElse(c, ExprStmt(Assign(Set, t, y)), ExprStmt(Assign(Set, t, z)))
  }

  /** c ? y : z becomes a temporary that a conditional statement sets. */
  function HoistedCond(hc: Hoisted, hy: Hoisted, hz: Hoisted): Hoisted {
    var t := Tmp(hz.gen);
    Hoisted(Var(t),
            hc.before + [DeclStmt(t), Choice(t, hc.e, Wrapped("unknown", hy), Wrapped("unknown", hz))],
            hc.after, hz.gen + 1)
  }

  // ----- what the result mentions -----

  lemma {:induction false} TempsGrow(g: nat, h: nat, k: nat)
    requires g <= h <= k
    ensures Temps(g, h) <= Temps(g, k) && Temps(h, k) <= Temps(g, k)
    ensures h < k ==> Tmp(h) in Temps(g, k)
  {
    assert h < k ==> Tmp(h) in Temps(h, k);
  }

  /** The pieces mention only what x does and the temporaries t, and the statements
      moved behind the expression mention only variables that x modifies. */
  ghost predicate Within(h: Hoisted, names: set<Name>, writes: set<Name>, t: set<Name>) {
    && Names(h.e) <= names + t
    && BlockNames(h.before) <= names + t
    && BlockNames(h.after) <= writes
    && Writes(h.e) <= writes + t
    && BlockWrites(h.before) <= writes + t
  }

  ghost predicate Foot(x: Expr, stmt: bool, noAfter: bool, g: nat) {
    var h := Hoist(x, stmt, noAfter, g);
    g <= h.gen && Within(h, Names(x), Writes(x), Temps(g, h.gen)) && (noAfter ==> h.after == [])
  }

  lemma {:induction false} HoistFoot(x: Expr, stmt: bool, noAfter: bool, g: nat)
    requires WellSequenced(x)
    ensures Foot(x, stmt, noAfter, g)
  {
    match x
    case Number(_) =>
    case Var(_) =>
    case Unary(_, a) => HoistFoot(a, false, noAfter, g);
    case Paren(a) => HoistFoot(a, false, noAfter, g);
    case Binary(op, l, r) =>
      HoistFoot(l, false, noAfter, g);
      HoistFoot(r, false, noAfter, Hoist(l, false, noAfter, g).gen);
      BinaryFoot(op, l, r, stmt, noAfter, g);
    case AndAnd(l, r) =>
      HoistFoot(l, false, true, g);
      HoistFoot(r, false, false, Hoist(l, false, true, g).gen);
      ShortFoot(l, r, stmt, noAfter, g);
    case OrOr(l, r) =>
      HoistFoot(l, false, true, g);
      HoistFoot(r, false, false, Hoist(l, false, true, g).gen);
      ShortFoot(l, r, stmt, noAfter, g);
    case Cond(c, y, z) =>
      var hc := Hoist(c, false, true, g);
      var hy := Hoist(y, false, false, hc.gen);
      HoistFoot(c, false, true, g);
      HoistFoot(y, false, false, hc.gen);
      HoistFoot(z, false, false, hy.gen);
      CondFoot(c, y, z, stmt, noAfter, g);
    case Assign(op, v, r) =>
      HoistFoot(r, false, noAfter, g);
      AssignFoot(op, v, r, stmt, noAfter, g);
    case IncDec(prefix, inc, v) => IncDecFoot(prefix, inc, v, stmt, noAfter, g);
    case SideEffectFunc(_, _, value, _) =>
      ResidualStays(value, noAfter, g);
  }

  /** Only what is modified after the last sequence point moves behind the expression. */
  lemma {:induction false} AfterIsLast(x: Expr, stmt: bool, noAfter: bool, g: nat)
    requires WellSequenced(x)
    ensures BlockNames(Hoist(x, stmt, noAfter, g).after) <= Last(x)
  {
    match x
    case Number(_) =>
    case Var(_) =>
    case Unary(_, a) => AfterIsLast(a, false, noAfter, g);
    case Paren(a) => AfterIsLast(a, false, noAfter, g);
    case Binary(_, l, r) =>
      var hl := Hoist(l, false, noAfter, g);
      AfterIsLast(l, false, noAfter, g);
      AfterIsLast(r, false, noAfter, hl.gen);
      NamesAppend(hl.after, Hoist(r, false, noAfter, hl.gen).after);
    case AndAnd(l, _) => NothingBehind(l, false, g);
    case OrOr(l, _) => NothingBehind(l, false, g);
    case Cond(c, _, _) => NothingBehind(c, false, g);
    case Assign(_, _, r) => AfterIsLast(r, false, noAfter, g);
    case IncDec(_, inc, v) => IncDecFootprint(inc, v, Tmp(g));
    case SideEffectFunc(_, _, value, _) => ResidualStays(value, noAfter, g);
  }

  /** The increments that can wait until the expression has its value: those of x++ and x-- with
      no sequence point behind them, in order. */
  function Postponed(x: Expr): seq<Stmt> {
    match x
    case Unary(_, a) => Postponed(a)
    case Paren(a) => Postponed(a)
    case Binary(_, l, r) => Postponed(l) + Postponed(r)
    case Assign(_, _, r) => Postponed(r)
    case IncDec(prefix, inc, v) => if prefix then [] else [ExprStmt(IncDec(false, inc, v))]
    case SideEffectFunc(_, _, value, _) => Postponed(value)
    case _ => []
  }

  /** The temporaries x needs: one for each conditional, and one for each x++ and x-- that cannot
      wait. */
  function Needs(x: Expr, noAfter: bool): nat {
    match x
    case Number(_) => 0
    case Var(_) => 0
    case Unary(_, a) => Needs(a, noAfter)
    case Paren(a) => Needs(a, noAfter)
    case Binary(_, l, r) => Needs(l, noAfter) + Needs(r, noAfter)
    case AndAnd(l, r) => Needs(l, true) + Needs(r, false)
    case OrOr(l, r) => Needs(l, true) + Needs(r, false)
    case Cond(c, y, z) => Needs(c, true) + Needs(y, false) + Needs(z, false) + 1
    case Assign(_, _, r) => Needs(r, noAfter)
    case IncDec(prefix, _, _) => if prefix || !noAfter then 0 else 1
    case SideEffectFunc(_, _, value, _) => Needs(value, noAfter)
  }

  /** What goes behind the expression is exactly that, and no other temporary is taken. */
  lemma {:induction false} AfterExactly(x: Expr, noAfter: bool, g: nat)
    ensures Hoist(x, false, noAfter, g).after == if noAfter then [] else Postponed(x)
    ensures Hoist(x, false, noAfter, g).gen == g + Needs(x, noAfter)
  {
    match x
    case Number(_) =>
    case Var(_) =>
    case Unary(_, a) => AfterExactly(a, noAfter, g);
    case Paren(a) => AfterExactly(a, noAfter, g);
    case Binary(_, l, r) =>
      AfterExactly(l, noAfter, g);
      AfterExactly(r, noAfter, Hoist(l, false, noAfter, g).gen);
    case AndAnd(l, r) => AfterExactly(l, true, g); AfterExactly(r, false, Hoist(l, false, true, g).gen);
    case OrOr(l, r) => AfterExactly(l, true, g); AfterExactly(r, false, Hoist(l, false, true, g).gen);
    case Cond(c, y, z) =>
      var hc := Hoist(c, false, true, g);
      var hy := Hoist(y, false, false, hc.gen);
      AfterExactly(c, true, g);
      AfterExactly(y, false, hc.gen);
      AfterExactly(z, false, hy.gen);
    case Assign(_, _, r) => AfterExactly(r, noAfter, g);
    case IncDec(_, _, _) =>
    case SideEffectFunc(_, _, value, _) => AfterExactly(value, noAfter, g);
  }

  /** What hoisting leaves modifies nothing outside function literals. */
  lemma {:induction false} ResidualLast(e: Expr)
    requires Residual(e)
    ensures Last(e) == {}
  {
    match e
    case Number(_) =>
    case Var(_) =>
    case Unary(_, a) => ResidualLast(a);
    case Paren(a) => ResidualLast(a);
    case Binary(_, l, r) => ResidualLast(l); ResidualLast(r);
    case AndAnd(_, r) => ResidualLast(r);
    case OrOr(_, r) => ResidualLast(r);
    case SideEffectFunc(_, _, _, _) =>
  }

  lemma {:induction false} LastIsWritten(e: Expr)
    ensures Last(e) <= Writes(e)
  {
    match e
    case Number(_) =>
    case Var(_) =>
    case Unary(_, a) => LastIsWritten(a);
    case Paren(a) => LastIsWritten(a);
    case Binary(_, l, r) => LastIsWritten(l); LastIsWritten(r);
    case AndAnd(_, r) => LastIsWritten(r);
    case OrOr(_, r) => LastIsWritten(r);
    case Cond(_, y, z) => LastIsWritten(y); LastIsWritten(z);
    case Assign(_, _, r) => LastIsWritten(r);
    case IncDec(_, _, _) =>
    case SideEffectFunc(_, _, _, _) =>
  }

  lemma {:induction false} HoistFootprint(x: Expr, stmt: bool, noAfter: bool, g: nat)
    requires WellSequenced(x)
    ensures g <= Hoist(x, stmt, noAfter, g).gen
    ensures Within(Hoist(x, stmt, noAfter, g), Names(x), Writes(x), Temps(g, Hoist(x, stmt, noAfter, g).gen))
    ensures noAfter ==> Hoist(x, stmt, noAfter, g).after == []
  {
    HoistFoot(x, stmt, noAfter, g);
  }

  lemma {:induction false} BinaryFoot(op: BinOp, l: Expr, r: Expr, stmt: bool, noAfter: bool, g: nat)
    requires Foot(l, false, noAfter, g) && Foot(r, false, noAfter, Hoist(l, false, noAfter, g).gen)
    ensures Foot(Binary(op, l, r), stmt, noAfter, g)
  {
    var hl := Hoist(l, false, noAfter, g);
    var hr := Hoist(r, false, noAfter, hl.gen);
    BothWithin(l, r, hl, hr, g);
    BinaryFootprint(op, l, r, hl, hr, Temps(g, hr.gen));
  }

  lemma {:induction false} ShortFoot(l: Expr, r: Expr, stmt: bool, noAfter: bool, g: nat)
    requires Foot(l, false, true, g) && Foot(r, false, false, Hoist(l, false, true, g).gen)
    ensures Foot(AndAnd(l, r), stmt, noAfter, g) && Foot(OrOr(l, r), stmt, noAfter, g)
  {
    var hl := Hoist(l, false, true, g);
    var hr := Hoist(r, false, false, hl.gen);
    BothWithin(l, r, hl, hr, g);
    ShortFootprint(l, r, hl, hr, Temps(g, hr.gen));
  }

  lemma {:induction false} CondFoot(c: Expr, y: Expr, z: Expr, stmt: bool, noAfter: bool, g: nat)
    requires Foot(c, false, true, g)
    requires var hc := Hoist(c, false, true, g);
             Foot(y, false, false, hc.gen) && Foot(z, false, false, Hoist(y, false, false, hc.gen).gen)
    ensures Foot(Cond(c, y, z), stmt, noAfter, g)
  {
    var hc := Hoist(c, false, true, g);
    var hy := Hoist(y, false, false, hc.gen);
    var hz := Hoist(z, false, false, hy.gen);
    AllWithin(c, y, z, hc, hy, hz, g);
    CondNames(c, y, z);
    assert Hoist(Cond(c, y, z), stmt, noAfter, g) == HoistedCond(hc, hy, hz);
  }

  lemma {:induction false} CondNames(c: Expr, y: Expr, z: Expr)
    ensures Names(c) + (Names(y) + Names(z)) == Names(Cond(c, y, z))
    ensures Writes(c) + (Writes(y) + Writes(z)) == Writes(Cond(c, y, z))
  {
  }

  lemma {:induction false} AssignFoot(op: AssignOp, v: Name, r: Expr, stmt: bool, noAfter: bool, g: nat)
    requires Foot(r, false, noAfter, g)
    ensures Foot(Assign(op, v, r), stmt, noAfter, g)
  {
    var h := Hoist(r, false, noAfter, g);
    AssignFootprint(op, v, r, h, Temps(g, h.gen));
  }

  lemma {:induction false} IncDecFoot(prefix: bool, inc: bool, v: Name, stmt: bool, noAfter: bool, g: nat)
    ensures Foot(IncDec(prefix, inc, v), stmt, noAfter, g)
  {
    TempsGrow(g, g, g + 1);
    IncDecFootprint(inc, v, Tmp(g));
  }

  lemma {:induction false} Weaken(h: Hoisted, names: set<Name>, writes: set<Name>, t: set<Name>, u: set<Name>)
    requires Within(h, names, writes, t) && t <= u
    ensures Within(h, names, writes, u)
  {
  }

  lemma {:induction false} BothWithin(l: Expr, r: Expr, hl: Hoisted, hr: Hoisted, g: nat)
    requires g <= hl.gen <= hr.gen
    requires Within(hl, Names(l), Writes(l), Temps(g, hl.gen)) && Within(hr, Names(r), Writes(r), Temps(hl.gen, hr.gen))
    ensures Within(hl, Names(l), Writes(l), Temps(g, hr.gen)) && Within(hr, Names(r), Writes(r), Temps(g, hr.gen))
  {
    TempsGrow(g, hl.gen, hr.gen);
    Weaken(hl, Names(l), Writes(l), Temps(g, hl.gen), Temps(g, hr.gen));
    Weaken(hr, Names(r), Writes(r), Temps(hl.gen, hr.gen), Temps(g, hr.gen));
  }

  lemma {:induction false} AllWithin(c: Expr, y: Expr, z: Expr, hc: Hoisted, hy: Hoisted, hz: Hoisted, g: nat)
    requires g <= hc.gen <= hy.gen <= hz.gen
    requires Within(hc, Names(c), Writes(c), Temps(g, hc.gen))
    requires Within(hy, Names(y), Writes(y), Temps(hc.gen, hy.gen))
    requires Within(hz, Names(z), Writes(z), Temps(hy.gen, hz.gen))
    ensures Within(HoistedCond(hc, hy, hz), Names(c) + (Names(y) + Names(z)), Writes(c) + (Writes(y) + Writes(z)),
                   Temps(g, hz.gen + 1))
  {
    var t := Temps(g, hz.gen + 1);
    TempsGrow(g, hc.gen, hz.gen + 1);
    TempsGrow(hc.gen, hy.gen, hz.gen + 1);
    TempsGrow(hy.gen, hz.gen, hz.gen + 1);
    Weaken(hc, Names(c), Writes(c), Temps(g, hc.gen), t);
    Weaken(hy, Names(y), Writes(y), Temps(hc.gen, hy.gen), t);
    Weaken(hz, Names(z), Writes(z), Temps(hy.gen, hz.gen), t);
    CondFootprint(c, y, z, hc, hy, hz, t);
  }

  lemma {:induction false} BinaryFootprint(op: BinOp, l: Expr, r: Expr, hl: Hoisted, hr: Hoisted, t: set<Name>)
    requires Within(hl, Names(l), Writes(l), t) && Within(hr, Names(r), Writes(r), t)
    ensures Within(Hoisted(Binary(op, hl.e, hr.e), hl.before + hr.before, hl.after + hr.after, hr.gen),
                   Names(l) + Names(r), Writes(l) + Writes(r), t)
  {
    NamesAppend(hl.before, hr.before);
    NamesAppend(hl.after, hr.after);
  }

  lemma {:induction false} ShortFootprint(l: Expr, r: Expr, hl: Hoisted, hr: Hoisted, t: set<Name>)
    requires Within(hl, Names(l), Writes(l), t) && Within(hr, Names(r), Writes(r), t)
    ensures Within(Hoisted(AndAnd(hl.e, Wrapped("bool", hr)), hl.before, hl.after, hr.gen),
                   Names(l) + Names(r), Writes(l) + Writes(r), t)
    ensures Within(Hoisted(OrOr(hl.e, Wrapped("bool", hr)), hl.before, hl.after, hr.gen),
                   Names(l) + Names(r), Writes(l) + Writes(r), t)
  {
    WritesAreNames(r);
    WrappedFootprint("bool", hr, Names(r), Writes(r), t);
  }

  lemma {:induction false} CondFootprint(c: Expr, y: Expr, z: Expr, hc: Hoisted, hy: Hoisted, hz: Hoisted, t: set<Name>)
    requires Within(hc, Names(c), Writes(c), t)
    requires Within(hy, Names(y), Writes(y), t) && Within(hz, Names(z), Writes(z), t)
    requires Tmp(hz.gen) in t
    ensures Within(HoistedCond(hc, hy, hz),
                   Names(c) + (Names(y) + Names(z)), Writes(c) + (Writes(y) + Writes(z)), t)
  {
    assert Writes(y) <= Names(y) && Writes(z) <= Names(z) by {
      WritesAreNames(y);
      WritesAreNames(z);
    }
    HoistedCondFootprint(hc, hy, hz, Names(c), Names(y), Names(z), Writes(c), Writes(y), Writes(z), t);
  }

  lemma {:induction false} HoistedCondFootprint(hc: Hoisted, hy: Hoisted, hz: Hoisted, nc: set<Name>, ny: set<Name>,
                                                nz: set<Name>, wc: set<Name>, wy: set<Name>, wz: set<Name>,
                                                t: set<Name>)
    requires Within(hc, nc, wc, t) && Within(hy, ny, wy, t) && Within(hz, nz, wz, t)
    requires wy <= ny && wz <= nz && Tmp(hz.gen) in t
    ensures Within(HoistedCond(hc, hy, hz), nc + (ny + nz), wc + (wy + wz), t)
  {
    var y', z' := Wrapped("unknown", hy), Wrapped("unknown", hz);
    assert Names(y') + Names(z') <= (ny + nz) + t && Writes(y') + Writes(z') <= (wy + wz) + t by {
      WrappedFootprint("unknown", hy, ny, wy, t);
      WrappedFootprint("unknown", hz, nz, wz, t);
    }
    ConditionalFootprint(hc, Tmp(hz.gen), y', z', hz.gen + 1, nc, ny + nz, wc, wy + wz, t);
  }

  lemma {:induction false} ConditionalFootprint(hc: Hoisted, v: Name, y: Expr, z: Expr, gen: nat, n: set<Name>,
                                                m: set<Name>, w: set<Name>, u: set<Name>, t: set<Name>)
    requires Within(hc, n, w, t) && v in t
    requires Names(y) + Names(z) <= m + t && Writes(y) + Writes(z) <= u + t
    ensures Within(Hoisted(Var(v), hc.before + [DeclStmt(v), Choice(v, hc.e, y, z)], hc.after, gen), n + m, w + u, t)
  {
    ChoiceFootprint(v, hc.e, y, z);
    NamesAppend(hc.before, [DeclStmt(v), Choice(v, hc.e, y, z)]);
  }

  lemma {:induction false} ChoiceFootprint(t: Name, c: Expr, y: Expr, z: Expr)
    ensures BlockNames([DeclStmt(t), Choice(t, c, y, z)]) == {t} + Names(c) + Names(y) + Names(z)
    ensures BlockWrites([DeclStmt(t), Choice(t, c, y, z)]) == {t} + Writes(c) + Writes(y) + Writes(z)
  {
    assert StmtNames(ExprStmt(Assign(Set, t, y))) == {t} + Names(y);
    assert StmtNames(ExprStmt(Assign(Set, t, z))) == {t} + Names(z);
    assert StmtWrites(ExprStmt(Assign(Set, t, y))) == {t} + Writes(y);
    assert StmtWrites(ExprStmt(Assign(Set, t, z))) == {t} + Writes(z);
    NamesOne(DeclStmt(t));
    NamesOne(Choice(t, c, y, z));
    NamesAppend([DeclStmt(t)], [Choice(t, c, y, z)]);
    assert [DeclStmt(t)] + [Choice(t, c, y, z)] == [DeclStmt(t), Choice(t, c, y, z)];
  }

  lemma {:induction false} AssignFootprint(op: AssignOp, v: Name, r: Expr, h: Hoisted, t: set<Name>)
    requires Within(h, Names(r), Writes(r), t)
    ensures Within(h.(e := Assign(op, v, h.e)), {v} + Names(r), {v} + Writes(r), t)
    ensures Within(h.(e := Var(v), before := h.before + [ExprStmt(Assign(op, v, h.e))]),
                   {v} + Names(r), {v} + Writes(r), t)
  {
    NamesOne(ExprStmt(Assign(op, v, h.e)));
    NamesAppend(h.before, [ExprStmt(Assign(op, v, h.e))]);
  }

  lemma {:induction false} IncDecFootprint(inc: bool, v: Name, t: Name)
    ensures BlockNames([ExprStmt(IncDec(false, inc, v))]) == {v} == BlockWrites([ExprStmt(IncDec(false, inc, v))])
    ensures var b := [ExprStmt(Assign(ColonEq, t, Var(v))), ExprStmt(IncDec(false, inc, v))];
            BlockNames(b) == {v, t} && BlockWrites(b) == {v, t}
  {
    var a, b := ExprStmt(Assign(ColonEq, t, Var(v))), ExprStmt(IncDec(false, inc, v));
    SaveFootprint(v, t);
    NamesOne(b);
    NamesAppend([a], [b]);
    assert [a] + [b] == [a, b];
  }

  lemma {:induction false} SaveFootprint(v: Name, t: Name)
    ensures BlockNames([ExprStmt(Assign(ColonEq, t, Var(v)))]) == {t, v}
    ensures BlockWrites([ExprStmt(Assign(ColonEq, t, Var(v)))]) == {t}
  {
    var r := Var(v);
    assert Names(r) == {v} && Writes(r) == {};
    var e := Assign(ColonEq, t, r);
    assert Names(e) == {t} + Names(r) && Writes(e) == {t} + Writes(r);
    NamesOne(ExprStmt(e));
  }

  lemma {:induction false} WrappedFootprint(text: string, h: Hoisted, names: set<Name>, writes: set<Name>, t: set<Name>)
    requires Within(h, names, writes, t) && writes <= names
    ensures Names(Wrapped(text, h)) <= names + t
    ensures Writes(Wrapped(text, h)) <= writes + t
  {
    BlockWritesAreNames(h.after);
    var f := SideEffectFunc(text, h.before, h.e, h.after);
    assert Names(f) == BlockNames(h.before) + Names(h.e) + BlockNames(h.after) <= names + t;
    assert Writes(f) == BlockWrites(h.before) + Writes(h.e) + BlockWrites(h.after) <= writes + t;
    var e := Wrapped(text, h);
    assert e == h.e || e == f;
    assert Names(e) <= names + t && Writes(e) <= writes + t;
  }

  /** Hoisting what hoisting left behind does nothing. */
  lemma {:induction false} ResidualStays(x: Expr, noAfter: bool, g: nat)
    requires Residual(x)
    ensures Hoist(x, false, noAfter, g) == Hoisted(x, [], [], g)
  {
    match x
    case Number(_) =>
    case Var(_) =>
    case Unary(_, a) => ResidualStays(a, noAfter, g);
    case Paren(a) => ResidualStays(a, noAfter, g);
    case Binary(_, l, r) => ResidualStays(l, noAfter, g); ResidualStays(r, noAfter, g);
    case AndAnd(l, r) => ResidualStays(l, true, g); ResidualStays(r, false, g);
    case OrOr(l, r) => ResidualStays(l, true, g); ResidualStays(r, false, g);
    case SideEffectFunc(_, _, value, _) => ResidualStays(value, noAfter, g);
  }

  // ----- what the result means -----

  /** Equal on everything but the temporaries numbered g and up. */
  ghost predicate SameBelow(s: Store, t: Store, g: nat) {
    forall x: Name :: (x.Tmp? ==> x.n < g) ==> s[x] == t[x]
  }

  /** Running before, then the expression, then after. */
  ghost function RunHoisted(h: Hoisted, s: Store, o: Ops): (int, Store) {
    var (v, s1) := Eval(h.e, Exec(h.before, s, o), o);
    (v, Exec(h.after, s1, o))
  }

  lemma {:induction false} EvalBelow(e: Expr, s: Store, t: Store, g: nat, o: Ops)
    requires Unused(Names(e), g) && SameBelow(s, t, g)
    ensures Eval(e, s, o).0 == Eval(e, t, o).0
    ensures SameBelow(Eval(e, s, o).1, Eval(e, t, o).1, g)
  {
    ReadsOnly(e, s, t, o);
  }

  /** The pieces of two independent operands can be interleaved. */
  lemma {:induction false} Interleave(hl: Hoisted, hr: Hoisted, s: Store, o: Ops)
    requires Apart(BlockWrites(hr.before), BlockNames(hr.before), Writes(hl.e), Names(hl.e))
    requires Apart(BlockWrites(hl.after), BlockNames(hl.after), BlockWrites(hr.before), BlockNames(hr.before))
    requires Apart(BlockWrites(hl.after), BlockNames(hl.after), Writes(hr.e), Names(hr.e))
    ensures var (v, t) := RunHoisted(hl, s, o);
            var (w, u) := RunHoisted(hr, t, o);
            var (v', s1) := Eval(hl.e, Exec(hl.before + hr.before, s, o), o);
            var (w', s2) := Eval(hr.e, s1, o);
            v' == v && w' == w && Exec(hl.after + hr.after, s2, o) == u
  {
    var sa := Exec(hl.before, s, o);
    ExecAppend(hl.before, hr.before, s, o);
    BlockThenEval(hr.before, hl.e, sa, o);
    var sb := Eval(hl.e, sa, o).1;
    BlockThenBlock(hl.after, hr.before, sb, o);
    var sc := Exec(hr.before, sb, o);
    BlockThenEval(hl.after, hr.e, sc, o);
    ExecAppend(hl.after, hr.after, Eval(hr.e, sc, o).1, o);
  }

  lemma {:induction false} PiecesApart(l: Expr, r: Expr, noAfter: bool, g: nat)
    requires WellSequenced(Binary(Add, l, r)) && Unused(Names(l) + Names(r), g)
    ensures var hl := Hoist(l, false, noAfter, g);
            var hr := Hoist(r, false, noAfter, hl.gen);
            && Apart(BlockWrites(hr.before), BlockNames(hr.before), Writes(hl.e), Names(hl.e))
            && Apart(BlockWrites(hl.after), BlockNames(hl.after), BlockWrites(hr.before), BlockNames(hr.before))
            && Apart(BlockWrites(hl.after), BlockNames(hl.after), Writes(hr.e), Names(hr.e))
            && Apart(Writes(hl.e), Names(hl.e), Writes(hr.e), Names(hr.e))
  {
    var hl := Hoist(l, false, noAfter, g);
    var hr := Hoist(r, false, noAfter, hl.gen);
    HoistFootprint(l, false, noAfter, g);
    HoistFootprint(r, false, noAfter, hl.gen);
    var tl, tr := Temps(g, hl.gen), Temps(hl.gen, hr.gen);
    assert tl !! tr;
    assert tl !! Names(l) + Names(r) && tr !! Names(l) + Names(r);
    BlockWritesAreNames(hl.after);
    WritesAreNames(l);
    WritesAreNames(r);
  }

  /** Running the pieces gives the value of x and, outside new temporaries, its store. */
  ghost predicate Means(h: Hoisted, x: Expr, g: nat, s: Store, o: Ops) {
    RunHoisted(h, s, o).0 == Eval(x, s, o).0 && MeansStore(h, x, g, s, o)
  }

  ghost predicate MeansStore(h: Hoisted, x: Expr, g: nat, s: Store, o: Ops) {
    SameBelow(RunHoisted(h, s, o).1, Eval(x, s, o).1, g)
  }

  /** Main result: running the pieces leaves the same store, outside the new temporaries,
      and unless x was a whole statement gives the same value, as running x itself. */
  lemma {:induction false} HoistMeans(x: Expr, stmt: bool, noAfter: bool, g: nat, s: Store, o: Ops)
    requires WellSequenced(x) && Unused(Names(x), g)
    ensures MeansStore(Hoist(x, stmt, noAfter, g), x, g, s, o)
    ensures !stmt ==> Means(Hoist(x, stmt, noAfter, g), x, g, s, o)
  {
    match x
    case Number(_) =>
    case Var(_) =>
    case Unary(_, a) => HoistMeans(a, false, noAfter, g, s, o);
    case Paren(a) => HoistMeans(a, false, noAfter, g, s, o);
    case Binary(op, l, r) =>
      var hl := Hoist(l, false, noAfter, g);
      HoistMeans(l, false, noAfter, g, s, o);
      GenGrows(l, false, noAfter, g);
      HoistMeans(r, false, noAfter, hl.gen, RunHoisted(hl, s, o).1, o);
      BinaryMeans(op, l, r, noAfter, g, s, o);
    case AndAnd(l, r) =>
      var hl := Hoist(l, false, true, g);
      HoistMeans(l, false, true, g, s, o);
      GenGrows(l, false, true, g);
      HoistMeans(r, false, false, hl.gen, RunHoisted(hl, s, o).1, o);
      HoistFootprint(l, false, true, g);
      ShortMeans(l, r, hl, Hoist(r, false, false, hl.gen), g, s, o);
    case OrOr(l, r) =>
      var hl := Hoist(l, false, true, g);
      HoistMeans(l, false, true, g, s, o);
      GenGrows(l, false, true, g);
      HoistMeans(r, false, false, hl.gen, RunHoisted(hl, s, o).1, o);
      HoistFootprint(l, false, true, g);
      ShortMeans(l, r, hl, Hoist(r, false, false, hl.gen), g, s, o);
    case Cond(c, y, z) =>
      var hc := Hoist(c, false, true, g);
      var hy := Hoist(y, false, false, hc.gen);
      var hz := Hoist(z, false, false, hy.gen);
      var t := AfterTest(hc, Tmp(hz.gen), s, o);
      HoistMeans(c, false, true, g, s, o);
      GenGrows(c, false, true, g);
      GenGrows(y, false, false, hc.gen);
      HoistMeans(y, false, false, hc.gen, t, o);
      HoistMeans(z, false, false, hy.gen, t, o);
      GenGrows(z, false, false, hy.gen);
      HoistFootprint(c, false, true, g);
      CondMeans(c, y, z, hc, hy, hz, g, s, o);
    case Assign(op, v, r) =>
      HoistMeans(r, false, noAfter, g, s, o);
      AfterIsLast(r, false, noAfter, g);
      LastIsWritten(r);
      AssignMeans(op, v, r, Hoist(r, false, noAfter, g), g, s, o);
    case IncDec(prefix, inc, v) =>
      IncDecMeans(prefix, inc, v, stmt, noAfter, g, s, o);
    case SideEffectFunc(_, _, value, _) =>
      ResidualStays(value, noAfter, g);
  }

  lemma {:induction false} GenGrows(x: Expr, stmt: bool, noAfter: bool, g: nat)
    ensures g <= Hoist(x, stmt, noAfter, g).gen
  {
    match x
    case Number(_) =>
    case Var(_) =>
    case Unary(_, a) => GenGrows(a, false, noAfter, g);
    case Paren(a) => GenGrows(a, false, noAfter, g);
    case Binary(_, l, r) =>
      GenGrows(l, false, noAfter, g);
      GenGrows(r, false, noAfter, Hoist(l, false, noAfter, g).gen);
    case AndAnd(l, r) =>
      GenGrows(l, false, true, g);
      GenGrows(r, false, false, Hoist(l, false, true, g).gen);
    case OrOr(l, r) =>
      GenGrows(l, false, true, g);
      GenGrows(r, false, false, Hoist(l, false, true, g).gen);
    case Cond(c, y, z) =>
      var hc := Hoist(c, false, true, g);
      var hy := Hoist(y, false, false, hc.gen);
      GenGrows(c, false, true, g);
      GenGrows(y, false, false, hc.gen);
      GenGrows(z, false, false, hy.gen);
    case Assign(_, _, r) => GenGrows(r, false, noAfter, g);
    case IncDec(_, _, _) =>
    case SideEffectFunc(_, _, value, _) => GenGrows(value, false, noAfter, g);
  }

  /** Nothing goes behind the expression when that is forbidden. */
  lemma {:induction false} NothingBehind(x: Expr, stmt: bool, g: nat)
    ensures Hoist(x, stmt, true, g).after == []
  {
    match x
    case Number(_) =>
    case Var(_) =>
    case Unary(_, a) => NothingBehind(a, false, g);
    case Paren(a) => NothingBehind(a, false, g);
    case Binary(_, l, r) =>
      NothingBehind(l, false, g);
      NothingBehind(r, false, Hoist(l, false, true, g).gen);
    case AndAnd(l, _) => NothingBehind(l, false, g);
    case OrOr(l, _) => NothingBehind(l, false, g);
    case Cond(c, _, _) => NothingBehind(c, false, g);
    case Assign(_, _, r) => NothingBehind(r, false, g);
    case IncDec(_, _, _) =>
    case SideEffectFunc(_, _, value, _) => NothingBehind(value, false, g);
  }

  /** Whether hoisting yields statements does not depend on the numbers of the temporaries. */
  lemma {:induction false} SameShape(x: Expr, stmt: bool, noAfter: bool, g: nat, h: nat)
    ensures |Hoist(x, stmt, noAfter, g).before| == |Hoist(x, stmt, noAfter, h).before|
    ensures |Hoist(x, stmt, noAfter, g).after| == |Hoist(x, stmt, noAfter, h).after|
  {
    match x
    case Number(_) =>
    case Var(_) =>
    case Unary(_, a) => SameShape(a, false, noAfter, g, h);
    case Paren(a) => SameShape(a, false, noAfter, g, h);
    case Binary(_, l, r) =>
      SameShape(l, false, noAfter, g, h);
      SameShape(r, false, noAfter, Hoist(l, false, noAfter, g).gen, Hoist(l, false, noAfter, h).gen);
    case AndAnd(l, _) => SameShape(l, false, true, g, h);
    case OrOr(l, _) => SameShape(l, false, true, g, h);
    case Cond(c, _, _) => SameShape(c, false, true, g, h);
    case Assign(_, _, r) => SameShape(r, false, noAfter, g, h);
    case IncDec(_, _, _) =>
    case SideEffectFunc(_, _, value, _) => SameShape(value, false, noAfter, g, h);
  }

  lemma {:induction false} BinaryMeans(op: BinOp, l: Expr, r: Expr, noAfter: bool, g: nat, s: Store, o: Ops)
    requires WellSequenced(Binary(op, l, r)) && Unused(Names(l) + Names(r), g)
    requires Means(Hoist(l, false, noAfter, g), l, g, s, o)
    requires var hl := Hoist(l, false, noAfter, g);
             Means(Hoist(r, false, noAfter, hl.gen), r, hl.gen, RunHoisted(hl, s, o).1, o)
    ensures Means(Hoist(Binary(op, l, r), false, noAfter, g), Binary(op, l, r), g, s, o)
  {
    var hl := Hoist(l, false, noAfter, g);
    var hr := Hoist(r, false, noAfter, hl.gen);
    HoistFootprint(l, false, noAfter, g);
    PiecesApart(l, r, noAfter, g);
    Interleave(hl, hr, s, o);
    EvalBelow(r, RunHoisted(hl, s, o).1, Eval(l, s, o).1, g, o);
    BinaryLeftFirst(op, l, r, s, o);
    BinaryLeftFirst(op, hl.e, hr.e, Exec(hl.before + hr.before, s, o), o);
  }

  lemma {:induction false} WrappedMeans(text: string, h: Hoisted, s: Store, o: Ops)
    ensures Eval(Wrapped(text, h), s, o) == RunHoisted(h, s, o)
  {
    var f := SideEffectFunc(text, h.before, h.e, h.after);
    assert Eval(f, s, o) == RunHoisted(h, s, o);
    assert Wrapped(text, h) == f || Wrapped(text, h) == h.e;
  }

  /** A conditionally evaluated operand, run from stores that differ only in temporaries. */
  lemma {:induction false} ArmMeans(text: string, r: Expr, hr: Hoisted, h: nat, g: nat, t: Store, sl: Store, o: Ops)
    requires Unused(Names(r), g) && g <= h && SameBelow(t, sl, g)
    requires Means(hr, r, h, t, o)
    ensures ArmAgrees(Wrapped(text, hr), r, t, sl, g, o)
  {
    WrappedMeans(text, hr, t, o);
    EvalBelow(r, t, sl, g, o);
  }

  ghost predicate ArmAgrees(e: Expr, f: Expr, t: Store, u: Store, g: nat, o: Ops) {
    Eval(e, t, o).0 == Eval(f, u, o).0 && SameBelow(Eval(e, t, o).1, Eval(f, u, o).1, g)
  }

  lemma {:induction false} ShortMeans(l: Expr, r: Expr, hl: Hoisted, hr: Hoisted, g: nat, s: Store, o: Ops)
    requires Unused(Names(r), g) && hl.after == [] && g <= hl.gen
    requires Means(hl, l, g, s, o)
    requires Means(hr, r, hl.gen, RunHoisted(hl, s, o).1, o)
    ensures Means(Hoisted(AndAnd(hl.e, Wrapped("bool", hr)), hl.before, hl.after, hr.gen), AndAnd(l, r), g, s, o)
    ensures Means(Hoisted(OrOr(hl.e, Wrapped("bool", hr)), hl.before, hl.after, hr.gen), OrOr(l, r), g, s, o)
  {
    ArmMeans("bool", r, hr, hl.gen, g, RunHoisted(hl, s, o).1, Eval(l, s, o).1, o);
    ShortCircuit(l, r, hl, Wrapped("bool", hr), s, o, hr.gen);
  }

  /** What && and || do when the left operand's pieces have run. */
  lemma {:induction false} ShortCircuit(l: Expr, r: Expr, hl: Hoisted, r': Expr, s: Store, o: Ops, h: nat)
    requires hl.after == []
    ensures var (v, t) := RunHoisted(hl, s, o);
            var (w, u) := Eval(r', t, o);
            && RunHoisted(Hoisted(AndAnd(hl.e, r'), hl.before, hl.after, h), s, o) ==
                 (if v == 0 then (0, t) else (Truth(w != 0), u))
            && RunHoisted(Hoisted(OrOr(hl.e, r'), hl.before, hl.after, h), s, o) ==
                 (if v != 0 then (1, t) else (Truth(w != 0), u))
  {
    var s1 := Exec(hl.before, s, o);
    assert Exec(hl.after, Eval(hl.e, s1, o).1, o) == Eval(hl.e, s1, o).1;
    var (v, t) := Eval(hl.e, s1, o);
    var (w, u) := Eval(r', t, o);
    assert Eval(AndAnd(hl.e, r'), s1, o) == if v == 0 then (0, t) else (Truth(w != 0), u);
    assert Eval(OrOr(hl.e, r'), s1, o) == if v != 0 then (1, t) else (Truth(w != 0), u);
  }

  /** The store in which an arm of a conditional runs: the temporary is declared first. */
  ghost function AfterTest(hc: Hoisted, t: Name, s: Store, o: Ops): Store {
    Eval(hc.e, Exec(hc.before, s, o)[t := 0], o).1
  }

  lemma {:induction false} CondMeans(c: Expr, y: Expr, z: Expr, hc: Hoisted, hy: Hoisted, hz: Hoisted, g: nat,
                                     s: Store, o: Ops)
    requires Unused(Names(y), g) && Unused(Names(z), g)
    requires hc.after == [] && Tmp(hz.gen) !in Names(hc.e)
    requires g <= hc.gen <= hy.gen <= hz.gen
    requires Means(hc, c, g, s, o)
    requires Means(hy, y, hc.gen, AfterTest(hc, Tmp(hz.gen), s, o), o)
    requires Means(hz, z, hy.gen, AfterTest(hc, Tmp(hz.gen), s, o), o)
    ensures Means(HoistedCond(hc, hy, hz), Cond(c, y, z), g, s, o)
  {
    var v := Tmp(hz.gen);
    var t, sc := AfterTest(hc, v, s, o), Eval(c, s, o).1;
    TestThenArm(hc, c, v, g, s, o);
    if Eval(c, s, o).0 != 0 {
      ArmMeans("unknown", y, hy, hc.gen, g, t, sc, o);
    } else {
      ArmMeans("unknown", z, hz, hy.gen, g, t, sc, o);
    }
    ConditionalMeans(c, y, z, hc, Wrapped("unknown", hy), Wrapped("unknown", hz), v, g, s, o, hz.gen + 1);
  }

  lemma {:induction false} ConditionalMeans(c: Expr, y: Expr, z: Expr, hc: Hoisted, y': Expr, z': Expr, v: Name,
                                            g: nat, s: Store, o: Ops, h: nat)
    requires hc.after == [] && v.Tmp? && v.n >= g
    requires Eval(hc.e, Exec(hc.before, s, o)[v := 0], o).0 == Eval(c, s, o).0
    requires var t, sc := AfterTest(hc, v, s, o), Eval(c, s, o).1;
             if Eval(c, s, o).0 != 0 then ArmAgrees(y', y, t, sc, g, o) else ArmAgrees(z', z, t, sc, g, o)
    ensures Means(Hoisted(Var(v), hc.before + [DeclStmt(v), Choice(v, hc.e, y', z')], hc.after, h),
                  Cond(c, y, z), g, s, o)
  {
    RunConditional(hc, v, y', z', s, o);
  }

  /** Declaring the temporary ahead of the test does not change the test. */
  lemma {:induction false} TestThenArm(hc: Hoisted, c: Expr, v: Name, g: nat, s: Store, o: Ops)
    requires Means(hc, c, g, s, o) && hc.after == []
    requires v !in Names(hc.e) && v.Tmp? && v.n >= g
    ensures Eval(hc.e, Exec(hc.before, s, o)[v := 0], o).0 == Eval(c, s, o).0
    ensures SameBelow(AfterTest(hc, v, s, o), Eval(c, s, o).1, g)
  {
    var s1 := Exec(hc.before, s, o);
    ReadsOnly(hc.e, s1, s1[v := 0], o);
  }

  lemma {:induction false} RunConditional(hc: Hoisted, v: Name, y: Expr, z: Expr, s: Store, o: Ops)
    ensures var (w, t) := Eval(hc.e, Exec(hc.before, s, o)[v := 0], o);
            var (a, u) := Eval(if w != 0 then y else z, t, o);
            Exec(hc.before + [DeclStmt(v), Choice(v, hc.e, y, z)], s, o) == u[v := a]
  {
    var b := [DeclStmt(v), Choice(v, hc.e, y, z)];
    var s1 := Exec(hc.before, s, o);
    ExecAppend(hc.before, b, s, o);
    assert b[1..] == [b[1]];
    assert Exec(b, s1, o) == Exec([b[1]], s1[v := 0], o);
    ExecOne(b[1], s1[v := 0], o);
    var (w, t) := Eval(hc.e, s1[v := 0], o);
    var arm := if w != 0 then y else z;
    assert ExecStmt(b[1], s1[v := 0], o) == ExecStmt(ExprStmt(Assign(Set, v, arm)), t, o);
    var (a, u) := Eval(arm, t, o);
    assert Eval(Assign(Set, v, arm), t, o) == (a, u[v := a]);
  }

  lemma {:induction false} BlockThenStore(b: seq<Stmt>, v: Name, w: int, s: Store, o: Ops)
    requires v !in BlockNames(b)
    ensures Exec(b, s[v := w], o) == Exec(b, s, o)[v := w]
    ensures Exec(b, s, o)[v] == s[v]
  {
    BlockReadsOnly(b, s, s[v := w], o);
    BlockWritesOnly(b, s, o);
    BlockWritesOnly(b, s[v := w], o);
    BlockWritesAreNames(b);
    var x, y := Exec(b, s[v := w], o), Exec(b, s, o)[v := w];
    forall n: Name ensures x[n] == y[n] {
    }
  }

  lemma {:induction false} AssignMeans(op: AssignOp, v: Name, r: Expr, h: Hoisted, g: nat, s: Store, o: Ops)
    requires Unused({v}, g) && v !in BlockNames(h.after)
    requires Means(h, r, g, s, o)
    ensures MeansStore(h.(e := Assign(op, v, h.e)), Assign(op, v, r), g, s, o)
    ensures Means(h.(e := Var(v), before := h.before + [ExprStmt(Assign(op, v, h.e))]), Assign(op, v, r), g, s, o)
  {
    var a := Assign(op, v, h.e);
    var s1 := Exec(h.before, s, o);
    var (w, s2) := Eval(h.e, s1, o);
    BlockThenStore(h.after, v, Assigned(op, s2[v], w, o), s2, o);
    ExecAppend(h.before, [ExprStmt(a)], s, o);
    ExecOne(ExprStmt(a), s1, o);
  }

  lemma {:induction false} IncDecMeans(prefix: bool, inc: bool, v: Name, stmt: bool, noAfter: bool, g: nat, s: Store,
                                       o: Ops)
    requires Unused({v}, g)
    ensures MeansStore(Hoist(IncDec(prefix, inc, v), stmt, noAfter, g), IncDec(prefix, inc, v), g, s, o)
    ensures !stmt ==> Means(Hoist(IncDec(prefix, inc, v), stmt, noAfter, g), IncDec(prefix, inc, v), g, s, o)
  {
    var step, save := ExprStmt(IncDec(false, inc, v)), ExprStmt(Assign(ColonEq, Tmp(g), Var(v)));
    var w := o.step(inc, s[v]);
    ExecOne(step, s, o);
    assert ExecStmt(step, s, o) == s[v := w];
    var s1 := s[Tmp(g) := s[v]];
    assert Eval(Assign(ColonEq, Tmp(g), Var(v)), s, o) == (s[v], s1);
    assert ExecStmt(save, s, o) == s1;
    assert ExecStmt(step, s1, o) == s1[v := w];
    assert [save, step][1..] == [step];
    ExecOne(step, s1, o);
    assert Exec([save, step], s, o) == s1[v := w];
    assert Exec([], s, o) == s;
  }

  /** Nothing is left to hoist: hoisting twice is hoisting once. */
  lemma {:induction false} HoistLeavesResidual(x: Expr, noAfter: bool, g: nat)
    ensures Residual(Hoist(x, false, noAfter, g).e)
  {
    match x
    case Number(_) =>
    case Var(_) =>
    case Unary(_, a) => HoistLeavesResidual(a, noAfter, g);
    case Paren(a) => HoistLeavesResidual(a, noAfter, g);
    case Binary(_, l, r) =>
      HoistLeavesResidual(l, noAfter, g);
      HoistLeavesResidual(r, noAfter, Hoist(l, false, noAfter, g).gen);
    case AndAnd(l, r) =>
      HoistLeavesResidual(l, true, g);
      HoistLeavesResidual(r, false, Hoist(l, false, true, g).gen);
    case OrOr(l, r) =>
      HoistLeavesResidual(l, true, g);
      HoistLeavesResidual(r, false, Hoist(l, false, true, g).gen);
    case Cond(_, _, _) =>
    case Assign(_, _, _) =>
    case IncDec(_, _, _) =>
    case SideEffectFunc(_, _, value, _) => HoistLeavesResidual(value, noAfter, g);
  }

  // ----- the program -----

  lemma {:induction false} Regroup<T>(a: seq<T>, b: seq<T>, c: seq<T>)
    ensures a + b + c == a + (b + c)
  {
  }

  /** A growing list of statements, shared by the calls that append to it. */
  class StmtList {
    var list: seq<Stmt>

    constructor ()
      ensures list == []
    {
      list := [];
    }

    method Append(more: seq<Stmt>)
      modifies this
      ensures list == old(list) + more
    {
      list := list + more;
    }
  }

  /** The rewriter: it hands out temporaries and appends to the caller's lists. */
  class Rewriter {
    var gen: nat

    constructor ()
      ensures gen == 1
    {
      gen := 1;
    }

    method NextTmp() returns (t: Name)
      modifies this
      ensures t == Tmp(old(gen)) && gen == old(gen) + 1
    {
      t := Tmp(gen);
      gen := gen + 1;
    }

    method DoSideEffects(x: Expr, before: StmtList, after: StmtList, stmt: bool, noAfter: bool) returns (e: Expr)
      requires before != after
      modifies this, before, after
      ensures var h := Hoist(x, stmt, noAfter, old(gen));
              && e == h.e && gen == h.gen
              && before.list == old(before.list) + h.before
              && after.list == old(after.list) + h.after
      decreases x, 1
    {
      match x
      case Number(_) => e := x;
      case Var(_) => e := x;
      case Unary(op, a) =>
        var a' := DoSideEffects(a, before, after, false, noAfter);
        e := Unary(op, a');
      case Paren(a) =>
        var a' := DoSideEffects(a, before, after, false, noAfter);
        e := Paren(a');
      case Binary(op, l, r) => e := DoBinary(op, l, r, before, after, noAfter);
      case AndAnd(l, r) =>
        var l' := DoSideEffects(l, before, after, false, true);
        var r' := CheckNoSideEffects(r, "bool");
        e := AndAnd(l', r');
      case OrOr(l, r) =>
        var l' := DoSideEffects(l, before, after, false, true);
        var r' := CheckNoSideEffects(r, "bool");
        e := OrOr(l', r');
      case Cond(c, y, z) => e := DoCond(c, y, z, before, after);
      case Assign(op, v, r) =>
        var r' := DoSideEffects(r, before, after, false, noAfter);
        if stmt {
          e := Assign(op, v, r');
        } else {
          before.Append([ExprStmt(Assign(op, v, r'))]);
          e := Var(v);
        }
      case IncDec(prefix, inc, v) => e := DoIncDec(prefix, inc, v, before, after, stmt, noAfter);
      case SideEffectFunc(text, block, value, behind) =>
        var value' := DoSideEffects(value, before, after, false, noAfter);
        e := SideEffectFunc(text, block, value', behind);
    }

    method DoBinary(op: BinOp, l: Expr, r: Expr, before: StmtList, after: StmtList, noAfter: bool) returns (e: Expr)
      requires before != after
      modifies this, before, after
      ensures var h := Hoist(Binary(op, l, r), false, noAfter, old(gen));
              && e == h.e && gen == h.gen
              && before.list == old(before.list) + h.before
              && after.list == old(after.list) + h.after
      decreases Binary(op, l, r), 0
    {
      ghost var b, a, hl := before.list, after.list, Hoist(l, false, noAfter, gen);
      ghost var hr := Hoist(r, false, noAfter, hl.gen);
      var l' := DoSideEffects(l, before, after, false, noAfter);
      var r' := DoSideEffects(r, before, after, false, noAfter);
      e := Binary(op, l', r');
      Regroup(b, hl.before, hr.before);
      Regroup(a, hl.after, hr.after);
    }

    /** c ? y : z becomes a temporary, set by an if statement. */
    method DoCond(c: Expr, y: Expr, z: Expr, before: StmtList, after: StmtList) returns (e: Expr)
      requires before != after
      modifies this, before, after
      ensures var h := Hoist(Cond(c, y, z), false, false, old(gen));
              && e == h.e && gen == h.gen
              && before.list == old(before.list) + h.before
              && after.list == old(after.list) + h.after
      decreases Cond(c, y, z), 0
    {
      ghost var b, hc := before.list, Hoist(c, false, true, gen);
      var c' := DoSideEffects(c, before, after, false, true);
      var y' := CheckNoSideEffects(y, "unknown");
      var z' := CheckNoSideEffects(z, "unknown");
      var t := NextTmp();
      before.Append([DeclStmt(t), Choice(t, c', y', z')]);
      e := Var(t);
      Regroup(b, hc.before, [DeclStmt(t), Choice(t, c', y', z')]);
    }

    method DoIncDec(prefix: bool, inc: bool, v: Name, before: StmtList, after: StmtList, stmt: bool, noAfter: bool)
      returns (e: Expr)
      requires before != after
      modifies this, before, after
      ensures var h := Hoist(IncDec(prefix, inc, v), stmt, noAfter, old(gen));
              && e == h.e && gen == h.gen
              && before.list == old(before.list) + h.before
              && after.list == old(after.list) + h.after
    {
      if stmt {
        e := IncDec(false, inc, v);
      } else if prefix {
        before.Append([ExprStmt(IncDec(false, inc, v))]);
        e := Var(v);
      } else if noAfter {
        var t := NextTmp();
        before.Append([ExprStmt(Assign(ColonEq, t, Var(v))), ExprStmt(IncDec(false, inc, v))]);
        e := Var(t);
      } else {
        after.Append([ExprStmt(IncDec(false, inc, v))]);
        e := Var(v);
      }
    }

    /** Side effects of a conditionally evaluated expression go into a function literal. */
    method CheckNoSideEffects(x: Expr, text: string) returns (e: Expr)
      modifies this
      ensures var h := Hoist(x, false, false, old(gen));
              e == Wrapped(text, h) && gen == h.gen
      decreases x, 2
    {
      var before := new StmtList();
      var after := new StmtList();
      e := DoSideEffects(x, before, after, false, false);
      if |before.list| + |after.list| > 0 {
        e := SideEffectFunc(text, before.list, e, after.list);
      }
    }

    method ExtractSideEffects(x: Expr, stmt: bool, noAfter: bool)
      returns (e: Expr, before: seq<Stmt>, after: seq<Stmt>)
      modifies this
      ensures Hoist(x, stmt, noAfter, old(gen)) == Hoisted(e, before, after, gen)
    {
      var b := new StmtList();
      var a := new StmtList();
      e := DoSideEffects(x, b, a, stmt, noAfter);
      before, after := b.list, a.list;
    }
  }
}
