/** Loops and conditionals: splitting && conditions whose later clauses have side effects,
    and hoisting the side effects of what is left. */
module Loops {
  import opened CTree
  import opened Common
  import opened SideEffects
  import opened Statements

  // ----- chains of && -----

  /** The operands of a left-nested chain of &&, left to right. */
  function Split(e: Expr): (cs: seq<Expr>)
    ensures |cs| > 0
  {
    if e.AndAnd? then Split(e.l) + [e.r] else [e]
  }

  function Join(cs: seq<Expr>): Expr
    requires |cs| > 0
  {
    if |cs| == 1 then cs[0] else AndAnd(Join(cs[..|cs| - 1]), cs[|cs| - 1])
  }

  lemma {:induction false} JoinOfSplit(e: Expr)
    ensures Join(Split(e)) == e
  {
    if e.AndAnd? {
      JoinOfSplit(e.l);
      assert Split(e)[..|Split(e)| - 1] == Split(e.l);
    }
  }

  /** How the chain nests does not matter. */
  lemma {:induction false} JoinMeans(cs: seq<Expr>, s: Store, o: Ops)
    requires |cs| > 0
    ensures (Eval(Join(cs), s, o).0 != 0) == EvalAll(cs, s, o).0
    ensures Eval(Join(cs), s, o).1 == EvalAll(cs, s, o).1
  {
    var n := |cs| - 1;
    if n == 0 {
      EvalOne(cs[0], s, o);
      assert cs == [cs[0]];
    } else {
      var s1 := EvalAll(cs[..n], s, o).1;
      JoinMeans(cs[..n], s, o);
      EvalAllAppend(cs[..n], [cs[n]], s, o);
      assert cs[..n] + [cs[n]] == cs;
      EvalOne(cs[n], s1, o);
    }
  }

  // ----- a condition in front of a statement -----

  /** Two clause-and-body pairs do the same from stores that differ only in the
      temporaries numbered g and up. */
  ghost predicate Matches(loop: bool, cs: seq<Expr>, body: CStmt, cs': seq<Expr>, body': CStmt, g: nat, w: World,
      o: Ops) {
    forall s: Store, t: Store :: Start(s, t, g) ==>
      Alike(Tested(loop, cs, body, s, w, o), Tested(loop, cs', body', t, w, o), g)
  }

  // ----- fixForAndAnd and fixIfAndAnd -----

  /** The hoisted statements and the rest of the test, put in front of the body. For a loop
      they go into the body's block; a body that is not a block has none and drops them. */
  function InFront(loop: bool, before: seq<Stmt>, test: Expr, body: CStmt): CStmt {
    if loop then
      if body.Block? then
        Block([BlockNoBrace(Lift(before) + [If(Unary(Not, test), Break)])] + body.list)
      else body
    else BlockNoBrace(Lift(before) + [If(test, body)])
  }

  lemma {:induction false} RunInFront(loop: bool, before: seq<Stmt>, cs: seq<Expr>, body: CStmt, s: Store, w: World,
                                      o: Ops)
    requires |cs| > 0 && (loop ==> body.Block?) && LogicalNot(o)
    ensures Run(InFront(loop, before, Join(cs), body), s, w, o) == Tested(loop, cs, body, Exec(before, s, o), w, o)
  {
    JoinMeans(cs, Exec(before, s, o), o);
    if loop {
      RunGuarded(before, Join(cs), body.list, s, w, o);
    } else {
      RunOne(before, If(Join(cs), body), s, w, o);
    }
  }

  /** Statements and a guard at the top of a block. */
  lemma {:induction false} RunGuarded(before: seq<Stmt>, test: Expr, list: seq<CStmt>, s: Store, w: World, o: Ops)
    requires LogicalNot(o)
    ensures var (v, s1) := Eval(test, Exec(before, s, o), o);
            Run(Block([BlockNoBrace(Lift(before) + [If(Unary(Not, test), Break)])] + list), s, w, o) ==
            if v == 0 then (Broke, s1) else RunList(list, s1, w, o)
  {
    var guard := If(Unary(Not, test), Break);
    var first := BlockNoBrace(Lift(before) + [guard]);
    RunOne(before, guard, s, w, o);
    RunGuard(test, Exec(before, s, o), w, o);
    assert Run(first, s, w, o) == Run(guard, Exec(before, s, o), w, o);
    assert ([first] + list)[1..] == list;
    assert Run(Block([first] + list), s, w, o) == RunList([first] + list, s, w, o);
  }

  lemma {:induction false} RunGuard(test: Expr, s: Store, w: World, o: Ops)
    requires LogicalNot(o)
    ensures Run(If(Unary(Not, test), Break), s, w, o) ==
            (if Eval(test, s, o).0 == 0 then Broke else Normal, Eval(test, s, o).1)
  {
    assert Eval(Unary(Not, test), s, o) == (Truth(Eval(test, s, o).0 == 0), Eval(test, s, o).1);
  }

  datatype Fixed = Fixed(clauses: seq<Expr>, body: CStmt, gen: nat)

  /** Works from the last clause to the second: one whose hoisting yields statements moves
      into the body together with all clauses after it; others only keep what is left. */
  function FixAndAnd(loop: bool, front: seq<Expr>, tail: seq<Expr>, body: CStmt, g: nat): Fixed
    requires |front| > 0
    decreases |front|
  {
    var n := |front| - 1;
    if n == 0 then Fixed(front + tail, body, g)
    else
      var h := Hoist(front[n], false, true, g);
      var rest := [h.e] + tail;
      if h.before == [] then FixAndAnd(loop, front[..n], rest, body, h.gen)
      else FixAndAnd(loop, front[..n], [], InFront(loop, h.before, Join(rest), body), h.gen)
  }

  /** Hoisting the clause yields statements to run before it. */
  predicate Hoists(c: Expr) {
    Hoist(c, false, true, 0).before != []
  }

  /** The clauses in front of the first that hoists, which is not looked for at the front. */
  function KeptCount(cs: seq<Expr>): (k: nat)
    requires |cs| > 0
    ensures 1 <= k <= |cs| && (k < |cs| <==> exists i :: 1 <= i < |cs| && Hoists(cs[i]))
  {
    var n := |cs| - 1;
    if n == 0 then 1
    else
      var k := KeptCount(cs[..n]);
      assert forall i :: 0 <= i < n ==> cs[..n][i] == cs[i];
      if k < n then k else if Hoists(cs[n]) then n else |cs|
  }

  /** Some clause after the first moves into the body. */
  predicate Moves(cs: seq<Expr>)
    requires |cs| > 0
  {
    KeptCount(cs) < |cs|
  }

  lemma {:induction false} KeptFirst(cs: seq<Expr>)
    requires |cs| > 0
    ensures var k := KeptCount(cs);
            (forall i :: 1 <= i < k ==> !Hoists(cs[i])) && (k < |cs| ==> Hoists(cs[k]))
  {
    var n := |cs| - 1;
    if n > 0 {
      KeptFirst(cs[..n]);
      assert forall i :: 0 <= i < n ==> cs[..n][i] == cs[i];
    }
  }

  lemma {:induction false} FixLength(loop: bool, front: seq<Expr>, tail: seq<Expr>, body: CStmt, g: nat)
    requires |front| > 0
    ensures |FixAndAnd(loop, front, tail, body, g).clauses| ==
            if Moves(front) then KeptCount(front) else |front| + |tail|
    decreases |front|
  {
    var n := |front| - 1;
    if n > 0 {
      var h := Hoist(front[n], false, true, g);
      SameShape(front[n], false, true, g, 0);
      FixLength(loop, front[..n], [h.e] + tail, body, h.gen);
      FixLength(loop, front[..n], [], InFront(loop, h.before, Join([h.e] + tail), body), h.gen);
    }
  }

  /** The clauses from the first that hoists on move, and no others. */
  lemma {:induction false} FixKeeps(loop: bool, cs: seq<Expr>, body: CStmt, g: nat)
    requires |cs| > 0
    ensures var k := |FixAndAnd(loop, cs, [], body, g).clauses|;
            1 <= k <= |cs| && (forall i :: 1 <= i < k ==> !Hoists(cs[i])) && (k < |cs| ==> Hoists(cs[k]))
  {
    FixLength(loop, cs, [], body, g);
    KeptFirst(cs);
  }

  ghost predicate AllReady(cs: seq<Expr>, g: nat) {
    forall k :: 0 <= k < |cs| ==> WellSequenced(cs[k]) && Unused(Names(cs[k]), g)
  }

  /** Hoisting one clause: its statements, then what is left of it. */
  lemma {:induction false} ClauseMeans(c: Expr, g: nat, g0: nat, s: Store, t: Store, o: Ops)
    requires WellSequenced(c) && Unused(Names(c), g0) && g0 <= g && SameBelow(s, t, g0)
    ensures var h := Hoist(c, false, true, g);
            var t1 := Exec(h.before, t, o);
            Eval(h.e, t1, o).0 == Eval(c, s, o).0 && SameBelow(Eval(c, s, o).1, Eval(h.e, t1, o).1, g0)
  {
    var h := Hoist(c, false, true, g);
    HoistFootprint(c, false, true, g);
    HoistMeans(c, false, true, g, t, o);
    EvalBelow(c, s, t, g0, o);
    assert RunHoisted(h, t, o) == Eval(h.e, Exec(h.before, t, o), o);
  }

  /** One more clause in front of a pair that matches, with its statements run first. */
  lemma {:induction false} ClauseInFront(loop: bool, c: Expr, cs: seq<Expr>, body: CStmt, cs': seq<Expr>, body': CStmt,
                                         g: nat, g0: nat, s: Store, t: Store, w: World, o: Ops)
    requires WellSequenced(c) && Unused(Names(c), g0) && g0 <= g && SameBelow(s, t, g0)
    requires Matches(loop, cs, body, cs', body', g0, w, o)
    ensures var h := Hoist(c, false, true, g);
            Alike(Tested(loop, [c] + cs, body, s, w, o),
                  Tested(loop, [h.e] + cs', body', Exec(h.before, t, o), w, o), g0)
  {
    var h := Hoist(c, false, true, g);
    var t1 := Exec(h.before, t, o);
    ClauseMeans(c, g, g0, s, t, o);
    assert Start(Eval(c, s, o).1, Eval(h.e, t1, o).1, g0);
    FirstClause(loop, c, h.e, cs, body, cs', body', g0, s, t1, w, o);
  }

  lemma {:induction false} FirstClause(loop: bool, c: Expr, c': Expr, cs: seq<Expr>, body: CStmt, cs': seq<Expr>,
                                       body': CStmt, g: nat, s: Store, t: Store, w: World, o: Ops)
    requires Eval(c', t, o).0 == Eval(c, s, o).0 && SameBelow(Eval(c, s, o).1, Eval(c', t, o).1, g)
    requires Alike(Tested(loop, cs, body, Eval(c, s, o).1, w, o), Tested(loop, cs', body', Eval(c', t, o).1, w, o), g)
    ensures Alike(Tested(loop, [c] + cs, body, s, w, o), Tested(loop, [c'] + cs', body', t, w, o), g)
  {
    TestedCons(loop, c, cs, body, s, w, o);
    TestedCons(loop, c', cs', body', t, w, o);
  }

  lemma {:induction false} TestedCons(loop: bool, c: Expr, cs: seq<Expr>, body: CStmt, s: Store, w: World, o: Ops)
    ensures var (v, s1) := Eval(c, s, o);
            Tested(loop, [c] + cs, body, s, w, o) ==
            if v != 0 then Tested(loop, cs, body, s1, w, o) else (if loop then Broke else Normal, s1)
  {
    assert ([c] + cs)[1..] == cs;
  }

  lemma {:induction false} ClauseKept(loop: bool, c: Expr, cs: seq<Expr>, body: CStmt, cs': seq<Expr>, body': CStmt,
                                      g: nat, g0: nat, w: World, o: Ops)
    requires WellSequenced(c) && Unused(Names(c), g0) && g0 <= g && Hoist(c, false, true, g).before == []
    requires Matches(loop, cs, body, cs', body', g0, w, o)
    ensures Matches(loop, [c] + cs, body, [Hoist(c, false, true, g).e] + cs', body', g0, w, o)
  {
    var kept := [Hoist(c, false, true, g).e] + cs';
    forall s: Store, t: Store | Start(s, t, g0)
      ensures Alike(Tested(loop, [c] + cs, body, s, w, o), Tested(loop, kept, body', t, w, o), g0)
    {
      ClauseInFront(loop, c, cs, body, cs', body', g, g0, s, t, w, o);
    }
  }

  lemma {:induction false} ClauseMoved(loop: bool, c: Expr, cs: seq<Expr>, body: CStmt, cs': seq<Expr>, body': CStmt,
                                       g: nat, g0: nat, w: World, o: Ops)
    requires WellSequenced(c) && Unused(Names(c), g0) && g0 <= g && (loop ==> body'.Block?) && LogicalNot(o)
    requires Matches(loop, cs, body, cs', body', g0, w, o)
    ensures var h := Hoist(c, false, true, g);
            Matches(loop, [c] + cs, body, [], InFront(loop, h.before, Join([h.e] + cs'), body'), g0, w, o)
  {
    var h := Hoist(c, false, true, g);
    var moved := InFront(loop, h.before, Join([h.e] + cs'), body');
    forall s: Store, t: Store | Start(s, t, g0)
      ensures Alike(Tested(loop, [c] + cs, body, s, w, o), Tested(loop, [], moved, t, w, o), g0)
    {
      ClauseInFront(loop, c, cs, body, cs', body', g, g0, s, t, w, o);
      RunInFront(loop, h.before, [h.e] + cs', body', t, w, o);
    }
  }

  lemma {:induction false} NoneMoves(front: seq<Expr>, g: nat)
    requires |front| > 1 && AllReady(front, g)
    ensures !Moves(front) ==> !Hoists(front[|front| - 1]) && !Moves(front[..|front| - 1])
    ensures AllReady(front[..|front| - 1], g)
  {
  }

  /** The fixed clauses and body do what the original clauses and body do. */
  lemma {:induction false} FixMeans(loop: bool, front: seq<Expr>, rest: seq<Expr>, body: CStmt, tail: seq<Expr>,
                                    body': CStmt, g: nat, g0: nat, w: World, o: Ops)
    requires |front| > 0 && AllReady(front, g0) && g0 <= g
    requires (loop ==> body'.Block? || !Moves(front)) && LogicalNot(o)
    requires Matches(loop, rest, body, tail, body', g0, w, o)
    ensures var f := FixAndAnd(loop, front, tail, body', g);
            |f.clauses| > 0 && f.clauses[0] == front[0] &&
            Matches(loop, front[1..] + rest, body, f.clauses[1..], f.body, g0, w, o)
    decreases |front|
  {
    var n := |front| - 1;
    if n == 0 {
      assert front[1..] + rest == rest;
      assert (front + tail)[1..] == tail;
    } else {
      var c := front[n];
      var h := Hoist(c, false, true, g);
      GenGrows(c, false, true, g);
      SameShape(c, false, true, g, 0);
      NoneMoves(front, g0);
      var kept := [h.e] + tail;
      assert front[..n][1..] + ([c] + rest) == front[1..] + rest;
      if h.before == [] {
        ClauseKept(loop, c, rest, body, tail, body', g, g0, w, o);
        FixMeans(loop, front[..n], [c] + rest, body, kept, body', h.gen, g0, w, o);
      } else {
        var moved := InFront(loop, h.before, Join(kept), body');
        ClauseMoved(loop, c, rest, body, tail, body', g, g0, w, o);
        FixMeans(loop, front[..n], [c] + rest, body, [], moved, h.gen, g0, w, o);
      }
    }
  }

  /** With a body that is no block, clauses that should move are lost, and all behind them. */
  lemma {:induction false} FixUnbraced(front: seq<Expr>, tail: seq<Expr>, body: CStmt, g: nat) returns (h: nat)
    requires |front| > 0 && !body.Block?
    ensures h >= g
    ensures FixAndAnd(true, front, tail, body, g) ==
            FixAndAnd(true, front[..KeptCount(front)], if Moves(front) then [] else tail, body, h)
    decreases |front|
  {
    var n := |front| - 1;
    if !Moves(front) {
      assert front[..KeptCount(front)] == front;
      h := g;
    } else {
      var hoisted := Hoist(front[n], false, true, g);
      GenGrows(front[n], false, true, g);
      SameShape(front[n], false, true, g, 0);
      var k := KeptCount(front[..n]);
      assert k == KeptCount(front) && front[..n][..k] == front[..k];
      var rest := if Hoists(front[n]) then [] else [hoisted.e] + tail;
      assert FixAndAnd(true, front, tail, body, g) == FixAndAnd(true, front[..n], rest, body, hoisted.gen);
      h := FixUnbraced(front[..n], rest, body, hoisted.gen);
    }
  }

  lemma {:induction false} FixLeavesResidual(loop: bool, front: seq<Expr>, tail: seq<Expr>, body: CStmt, g: nat)
    requires |front| > 0
    requires forall k :: 0 <= k < |tail| ==> Residual(tail[k])
    ensures var f := FixAndAnd(loop, front, tail, body, g);
            |f.clauses| > 0 && f.gen >= g && forall k :: 1 <= k < |f.clauses| ==> Residual(f.clauses[k])
    decreases |front|
  {
    var n := |front| - 1;
    if n > 0 {
      var h := Hoist(front[n], false, true, g);
      HoistLeavesResidual(front[n], true, g);
      GenGrows(front[n], false, true, g);
      var rest := [h.e] + tail;
      if h.before == [] {
        FixLeavesResidual(loop, front[..n], rest, body, h.gen);
      } else {
        FixLeavesResidual(loop, front[..n], [], InFront(loop, h.before, Join(rest), body), h.gen);
      }
    }
  }

  /** Hoisting the joined clauses again touches only the first. */
  lemma {:induction false} HoistOfJoin(cs: seq<Expr>, g: nat)
    requires |cs| > 0
    requires forall k :: 1 <= k < |cs| ==> Residual(cs[k])
    ensures var h := Hoist(cs[0], false, true, g);
            Hoist(Join(cs), false, true, g) == Hoisted(Join([h.e] + cs[1..]), h.before, [], h.gen)
  {
    var n := |cs| - 1;
    var h := Hoist(cs[0], false, true, g);
    NothingBehind(cs[0], false, g);
    if n == 0 {
      assert [h.e] + cs[1..] == [h.e];
    } else {
      HoistOfJoin(cs[..n], g);
      ResidualStays(cs[n], false, h.gen);
      assert ([h.e] + cs[1..])[..n] == [h.e] + cs[..n][1..];
    }
  }

  // ----- loops -----

  ghost predicate PostMatches(post: Post, post': Post, g: nat, o: Ops) {
    forall s: Store, t: Store :: Start(s, t, g) ==>
      SameBelow(RunPost(post, s, o), RunPost(post', t, o), g)
  }

  lemma {:induction false} LoopsMatch(cond: Option<Expr>, post: Post, body: CStmt, cond': Option<Expr>, post': Post,
                                      body': CStmt, s: Store, t: Store, fuel: nat, g: nat, w: World, o: Ops)
    requires Matches(true, Clauses(cond), body, Clauses(cond'), body', g, w, o)
    requires PostMatches(post, post', g, o)
    requires SameBelow(s, t, g)
    ensures BothAlike(RunLoop(cond, post, body, s, fuel, w, o), RunLoop(cond', post', body', t, fuel, w, o), g)
  {
    if fuel == 0 {
      assert RunLoop(cond, post, body, s, fuel, w, o).None? && RunLoop(cond', post', body', t, fuel, w, o).None?;
    } else {
      assert Alike(Tested(true, Clauses(cond), body, s, w, o), Tested(true, Clauses(cond'), body', t, w, o), g) by {
        assert Start(s, t, g);
      }
      var (out, s1) := Tested(true, Clauses(cond), body, s, w, o);
      var t1 := Tested(true, Clauses(cond'), body', t, w, o).1;
      if out == Normal || out == Continued {
        assert SameBelow(RunPost(post, s1, o), RunPost(post', t1, o), g) by {
          assert Start(s1, t1, g);
        }
        LoopsMatch(cond, post, body, cond', post', body', RunPost(post, s1, o), RunPost(post', t1, o), fuel - 1,
                   g, w, o);
      }
      RoundThenLoop(cond, post, body, cond', post', body', s, t, fuel, g, w, o);
    }
  }

  function ForceBlock(body: CStmt): (b: CStmt)
    ensures b.Block?
  {
    if body.Block? then body else Block([body])
  }

  lemma {:induction false} RunForced(body: CStmt, s: Store, w: World, o: Ops)
    ensures Run(ForceBlock(body), s, w, o) == Run(body, s, w, o)
    ensures RunList(ForceBlock(body).list, s, w, o) == Run(body, s, w, o)
  {
    if body.Block? {
      assert Run(body, s, w, o) == RunList(body.list, s, w, o);
    } else {
      RunOne([], body, s, w, o);
      assert Lift([]) + [body] == [body];
      assert Run(Block([body]), s, w, o) == RunList([body], s, w, o);
    }
  }

  datatype NewFor = NewFor(before: seq<Stmt>, f: ForStmt, gen: nat)

  /** The condition of a loop whose remaining test still needs statements run first moves
      into the top of the body. */
  function MoveTest(h: Hoisted, body: CStmt): (Option<Expr>, CStmt) {
    if h.before == [] then (Some(h.e), body)
    else (None, Block(Lift(h.before) + [If(Unary(Not, h.e), Break)] + ForceBlock(body).list))
  }

  /** Rewriting the test and the initialisation of a for statement: statements to run
      before it, and the new statement. */
  function RewriteTest(f: ForStmt, g: nat): NewFor {
    var fixed :=
      if f.cond.None? then Fixed([], f.body, g) else FixAndAnd(true, Split(f.cond.value), [], f.body, g);
    var hp := if f.pre.None? then Hoisted(Number(0), [], [], fixed.gen) else Hoist(f.pre.value, true, true, fixed.gen);
    var pre := if f.pre.None? then None else Some(hp.e);
    if fixed.clauses == [] then NewFor(hp.before, f.(pre := pre), hp.gen)
    else
      var hc := Hoist(Join(fixed.clauses), false, true, hp.gen);
      var (cond, body) := MoveTest(hc, fixed.body);
      NewFor(hp.before, ForStmt(pre, cond, f.post, body), hc.gen)
  }

  function RewritePost(post: Post, g: nat): (Post, nat) {
    if !post.PostExpr? then (post, g)
    else
      var hq := Hoist(post.e, true, false, g);
      (if hq.before == [] && hq.after == [] then PostExpr(hq.e)
       else PostBlock(hq.before + [ExprStmt(hq.e)] + hq.after), hq.gen)
  }

  /** What rewriting a for statement yields. When there are statements before it, its post
      expression is left for the next visit. */
  function RewriteFor(f: ForStmt, g: nat): NewFor {
    var n := RewriteTest(f, g);
    if n.before != [] then n
    else
      var (post, gen) := RewritePost(f.post, n.gen);
      NewFor([], n.f.(post := post), gen)
  }

  ghost predicate ReadyFor(f: ForStmt, g: nat, o: Ops) {
    ReadyParts(f, g) && (f.cond.Some? ==> LosesNothing(f.cond.value, f.body, o))
  }

  ghost predicate ReadyParts(f: ForStmt, g: nat) {
    && (f.pre.Some? ==> WellSequenced(f.pre.value) && Unused(Names(f.pre.value), g))
    && (f.cond.Some? ==> WellSequenced(f.cond.value) && Unused(Names(f.cond.value), g))
    && (f.post.PostExpr? ==> WellSequenced(f.post.e) && Unused(Names(f.post.e), g))
    && (f.post.PostBlock? ==> Unused(BlockNames(f.post.list), g))
  }

  lemma {:induction false} SplitReady(e: Expr, g: nat)
    requires WellSequenced(e) && Unused(Names(e), g)
    ensures AllReady(Split(e), g)
  {
    if e.AndAnd? {
      SplitReady(e.l, g);
    }
  }

  /** The clauses after the first, with the body: what the fix makes of them. */
  lemma {:induction false} FixedMatches(loop: bool, front: seq<Expr>, body: CStmt, g0: nat, g: nat, w: World, o: Ops)
    requires |front| > 0 && AllReady(front, g0) && g0 <= g && LogicalNot(o)
    requires loop ==> body.Block? || !Moves(front)
    requires Ignores(body, g0, w, o)
    ensures var f := FixAndAnd(loop, front, [], body, g);
            && f.gen >= g && |f.clauses| > 0 && f.clauses[0] == front[0]
            && (forall k :: 1 <= k < |f.clauses| ==> Residual(f.clauses[k]))
            && Matches(loop, front[1..], body, f.clauses[1..], f.body, g0, w, o)
  {
    forall s: Store, t: Store | Start(s, t, g0)
      ensures Alike(Tested(loop, [], body, s, w, o), Tested(loop, [], body, t, w, o), g0)
    {
      assert Alike(Run(body, s, w, o), Run(body, t, w, o), g0);
    }
    FixMeans(loop, front, [], body, [], body, g, g0, w, o);
    FixLeavesResidual(loop, front, [], body, g);
    assert front[1..] + [] == front[1..];
  }

  /** The rewritten test and body of a loop do what these clauses and the body do. */
  lemma {:induction false} TestMatches(front: seq<Expr>, body: CStmt, g0: nat, g: nat, g2: nat, w: World, o: Ops)
    requires |front| > 0 && AllReady(front, g0) && g0 <= g && LogicalNot(o)
    requires body.Block? || !Moves(front)
    requires Ignores(body, g0, w, o)
    requires g2 >= FixAndAnd(true, front, [], body, g).gen
    ensures var f := FixAndAnd(true, front, [], body, g);
            |f.clauses| > 0 &&
            var (cond, body') := MoveTest(Hoist(Join(f.clauses), false, true, g2), f.body);
            Matches(true, front, body, Clauses(cond), body', g0, w, o)
  {
    var f := FixAndAnd(true, front, [], body, g);
    FixedMatches(true, front, body, g0, g, w, o);
    HoistOfJoin(f.clauses, g2);
    var (cond, body') := MoveTest(Hoist(Join(f.clauses), false, true, g2), f.body);
    forall s: Store, t: Store | Start(s, t, g0)
      ensures Alike(Tested(true, front, body, s, w, o), Tested(true, Clauses(cond), body', t, w, o), g0)
    {
      TestMatchesAt(front, body, f.clauses, f.body, g0, g2, s, t, w, o);
    }
  }

  lemma {:induction false} TestMatchesAt(front: seq<Expr>, body: CStmt, cs: seq<Expr>, body': CStmt, g: nat, g2: nat,
                                         s: Store, t: Store, w: World, o: Ops)
    requires |front| > 0 && |cs| > 0 && cs[0] == front[0] && WellSequenced(cs[0]) && Unused(Names(cs[0]), g)
    requires g2 >= g && LogicalNot(o) && SameBelow(s, t, g)
    requires Matches(true, front[1..], body, cs[1..], body', g, w, o)
    requires var h := Hoist(cs[0], false, true, g2);
             Hoist(Join(cs), false, true, g2) == Hoisted(Join([h.e] + cs[1..]), h.before, [], h.gen)
    ensures var (cond, body'') := MoveTest(Hoist(Join(cs), false, true, g2), body');
            Alike(Tested(true, front, body, s, w, o), Tested(true, Clauses(cond), body'', t, w, o), g)
  {
    var h := Hoist(cs[0], false, true, g2);
    ClauseInFront(true, cs[0], front[1..], body, cs[1..], body', g2, g, s, t, w, o);
    assert [cs[0]] + front[1..] == front;
    RunMovedTest(Hoist(Join(cs), false, true, g2), [h.e] + cs[1..], body', t, w, o);
  }

  /** The clauses of a loop's condition that are not lost: all of them, when the body is a block. */
  function KeptClauses(e: Expr, body: CStmt): (cs: seq<Expr>)
    ensures |cs| > 0 && cs[0] == Split(e)[0]
  {
    if body.Block? then Split(e) else Split(e)[..KeptCount(Split(e))]
  }

  /** The clauses that are lost, and that should have moved into a body that is no block. */
  function LostClauses(e: Expr, body: CStmt): (cs: seq<Expr>)
    ensures KeptClauses(e, body) + cs == Split(e)
  {
    if body.Block? then [] else Split(e)[KeptCount(Split(e))..]
  }

  /** Wherever the other clauses are true, those lost are true as well and change nothing. */
  ghost predicate LosesNothing(e: Expr, body: CStmt, o: Ops) {
    forall s: Store :: EvalAll(KeptClauses(e, body), s, o).0 ==>
      LostIdle(e, body, EvalAll(KeptClauses(e, body), s, o).1, o)
  }

  ghost predicate LostIdle(e: Expr, body: CStmt, s: Store, o: Ops) {
    EvalAll(LostClauses(e, body), s, o) == (true, s)
  }

  /** The test of a rewritten loop, and its body, do what the clauses that are kept do. */
  lemma {:induction false} KeptTestMatches(e: Expr, body: CStmt, g: nat, g2: nat, w: World, o: Ops)
    requires WellSequenced(e) && Unused(Names(e), g) && LogicalNot(o) && Ignores(body, g, w, o)
    requires g2 >= FixAndAnd(true, Split(e), [], body, g).gen
    ensures var f := FixAndAnd(true, Split(e), [], body, g);
            |f.clauses| > 0 &&
            var (cond, body') := MoveTest(Hoist(Join(f.clauses), false, true, g2), f.body);
            Matches(true, KeptClauses(e, body), body, Clauses(cond), body', g, w, o)
  {
    SplitReady(e, g);
    var kept := KeptClauses(e, body);
    assert forall k :: 0 <= k < |kept| ==> kept[k] == Split(e)[k];
    if body.Block? {
      TestMatches(kept, body, g, g, g2, w, o);
    } else {
      KeptStay(Split(e));
      var h := FixUnbraced(Split(e), [], body, g);
      assert FixAndAnd(true, Split(e), [], body, g) == FixAndAnd(true, kept, [], body, h);
      TestMatches(kept, body, g, h, g2, w, o);
    }
  }

  lemma {:induction false} KeptStay(cs: seq<Expr>)
    requires |cs| > 0
    ensures !Moves(cs[..KeptCount(cs)])
  {
    var k := KeptCount(cs);
    if k < |cs| {
      KeptStay(cs[..|cs| - 1]);
      assert cs[..|cs| - 1][..KeptCount(cs[..|cs| - 1])] == cs[..KeptCount(cs[..|cs| - 1])];
    } else {
      assert cs[..k] == cs;
    }
  }

  lemma {:induction false} LostMeans(e: Expr, body: CStmt, s: Store, w: World, o: Ops)
    ensures var (v, s1) := EvalAll(KeptClauses(e, body), s, o);
            var (u, s2) := EvalAll(LostClauses(e, body), s1, o);
            Tested(true, [e], body, s, w, o) ==
            if !v then (Broke, s1) else if !u then (Broke, s2) else Run(body, s2, w, o)
  {
    JoinOfSplit(e);
    TestedJoin(true, Split(e), body, s, w, o);
    EvalAllAppend(KeptClauses(e, body), LostClauses(e, body), s, o);
  }

  /** The rewritten test and body of a loop do what the original ones do. */
  lemma {:induction false} LoopTestMatches(e: Expr, body: CStmt, g: nat, g2: nat, w: World, o: Ops)
    requires WellSequenced(e) && Unused(Names(e), g) && LogicalNot(o) && Ignores(body, g, w, o)
    requires LosesNothing(e, body, o)
    requires g2 >= FixAndAnd(true, Split(e), [], body, g).gen
    ensures var f := FixAndAnd(true, Split(e), [], body, g);
            |f.clauses| > 0 &&
            var (cond, body') := MoveTest(Hoist(Join(f.clauses), false, true, g2), f.body);
            Matches(true, [e], body, Clauses(cond), body', g, w, o)
  {
    KeptTestMatches(e, body, g, g2, w, o);
    var f := FixAndAnd(true, Split(e), [], body, g);
    var (cond, body') := MoveTest(Hoist(Join(f.clauses), false, true, g2), f.body);
    forall s: Store, t: Store | Start(s, t, g)
      ensures Alike(Tested(true, [e], body, s, w, o), Tested(true, Clauses(cond), body', t, w, o), g)
    {
      LostMeans(e, body, s, w, o);
      assert EvalAll(KeptClauses(e, body), s, o).0 ==> LostIdle(e, body, EvalAll(KeptClauses(e, body), s, o).1, o);
      assert Tested(true, [e], body, s, w, o) == Tested(true, KeptClauses(e, body), body, s, w, o);
    }
  }

  lemma {:induction false} TestedJoin(loop: bool, cs: seq<Expr>, body: CStmt, s: Store, w: World, o: Ops)
    requires |cs| > 0
    ensures Tested(loop, [Join(cs)], body, s, w, o) == Tested(loop, cs, body, s, w, o)
  {
    JoinMeans(cs, s, o);
    EvalOne(Join(cs), s, o);
  }

  lemma {:induction false} RunMovedTest(h: Hoisted, cs: seq<Expr>, body: CStmt, t: Store, w: World, o: Ops)
    requires |cs| > 0 && h.e == Join(cs) && LogicalNot(o)
    ensures var (cond, body') := MoveTest(h, body);
            Tested(true, Clauses(cond), body', t, w, o) == Tested(true, cs, body, Exec(h.before, t, o), w, o)
  {
    var t1 := Exec(h.before, t, o);
    if h.before == [] {
      TestedJoin(true, cs, body, t, w, o);
    } else {
      var guard := If(Unary(Not, h.e), Break);
      var rest := ForceBlock(body).list;
      var all := Lift(h.before) + [guard] + rest;
      assert all == Lift(h.before) + ([guard] + rest);
      RunLifted(h.before, [guard] + rest, t, w, o);
      RunGuard(h.e, t1, w, o);
      assert ([guard] + rest)[1..] == rest;
      JoinMeans(cs, t1, o);
      RunForced(body, Eval(h.e, t1, o).1, w, o);
      assert Run(Block(all), t, w, o) == RunList(all, t, w, o);
    }
  }

  lemma {:induction false} SamePost(post: Post, g: nat, o: Ops)
    requires post.PostExpr? ==> Unused(Names(post.e), g)
    requires post.PostBlock? ==> Unused(BlockNames(post.list), g)
    ensures PostMatches(post, post, g, o)
  {
    forall s: Store, t: Store | Start(s, t, g)
      ensures SameBelow(RunPost(post, s, o), RunPost(post, t, o), g)
    {
      match post
      case NoPost =>
      case PostExpr(e) => EvalBelow(e, s, t, g, o);
      case PostBlock(list) => BlockReadsOnly(list, s, t, o);
    }
  }

  lemma {:induction false} NewPost(e: Expr, g: nat, h: nat, o: Ops)
    requires WellSequenced(e) && Unused(Names(e), g) && g <= h
    ensures var hq := Hoist(e, true, false, h);
            && PostMatches(PostExpr(e), PostBlock(hq.before + [ExprStmt(hq.e)] + hq.after), g, o)
            && (hq.before == [] && hq.after == [] ==> PostMatches(PostExpr(e), PostExpr(hq.e), g, o))
  {
    var hq := Hoist(e, true, false, h);
    var all := hq.before + [ExprStmt(hq.e)] + hq.after;
    forall s: Store, t: Store | Start(s, t, g)
      ensures SameBelow(Eval(e, s, o).1, Exec(all, t, o), g)
      ensures Exec(all, t, o) == RunHoisted(hq, t, o).1
    {
      EvalBelow(e, s, t, g, o);
      HoistMeans(e, true, false, h, t, o);
      RunAround(hq, t, o);
    }
  }

  /** before; the expression as a statement; after. */
  lemma {:induction false} RunAround(h: Hoisted, t: Store, o: Ops)
    ensures Exec(h.before + [ExprStmt(h.e)] + h.after, t, o) == RunHoisted(h, t, o).1
  {
    var t1 := Exec(h.before, t, o);
    ExecAppend(h.before + [ExprStmt(h.e)], h.after, t, o);
    ExecAppend(h.before, [ExprStmt(h.e)], t, o);
    ExecOne(ExprStmt(h.e), t1, o);
  }

  /** Main result for loops: for every number of rounds, the rewritten loop ends in the same
      way and, outside the new temporaries, in the same store, or has not ended either. */
  lemma {:induction false} ForMeans(f: ForStmt, g: nat, s: Store, t: Store, fuel: nat, w: World, o: Ops)
    requires ReadyFor(f, g, o) && LogicalNot(o) && Ignores(f.body, g, w, o)
    requires SameBelow(s, t, g)
    ensures var n := RewriteFor(f, g);
            BothAlike(RunFor(f, s, fuel, w, o), RunFor(n.f, Exec(n.before, t, o), fuel, w, o), g)
  {
    var n := RewriteFor(f, g);
    assert Matches(true, Clauses(f.cond), f.body, Clauses(n.f.cond), n.f.body, g, w, o) by {
      TestStep(f, g, w, o);
    }
    assert PostMatches(f.post, n.f.post, g, o) by {
      TestGenGrows(f, g);
      PostStep(f.post, g, RewriteTest(f, g).gen, o);
    }
    PreStep(f, g, s, t, o);
    var s1 := if f.pre.None? then s else Eval(f.pre.value, s, o).1;
    var t0 := Exec(n.before, t, o);
    var t1 := if n.f.pre.None? then t0 else Eval(n.f.pre.value, t0, o).1;
    LoopsMatch(f.cond, f.post, f.body, n.f.cond, n.f.post, n.f.body, s1, t1, fuel, g, w, o);
  }

  lemma {:induction false} GensGrow(f: ForStmt, g: nat)
    requires f.cond.Some? ==> WellSequenced(f.cond.value)
    ensures var fixed := if f.cond.None? then Fixed([], f.body, g)
        else FixAndAnd(true, Split(f.cond.value), [], f.body, g);
            fixed.gen >= g &&
            (f.pre.Some? ==> Hoist(f.pre.value, true, true, fixed.gen).gen >= fixed.gen)
  {
    var fixed := if f.cond.None? then Fixed([], f.body, g) else FixAndAnd(true, Split(f.cond.value), [], f.body, g);
    if f.cond.Some? {
      SplitSequenced(f.cond.value);
      FixLeavesResidual(true, Split(f.cond.value), [], f.body, g);
    }
    if f.pre.Some? {
      GenGrows(f.pre.value, true, true, fixed.gen);
    }
  }

  lemma {:induction false} SplitSequenced(e: Expr)
    requires WellSequenced(e)
    ensures forall k :: 0 <= k < |Split(e)| ==> WellSequenced(Split(e)[k])
  {
    if e.AndAnd? {
      SplitSequenced(e.l);
    }
  }

  lemma {:induction false} TestGenGrows(f: ForStmt, g: nat)
    requires f.cond.Some? ==> WellSequenced(f.cond.value)
    ensures RewriteTest(f, g).gen >= g
  {
    GensGrow(f, g);
    if f.cond.Some? {
      var fixed := FixAndAnd(true, Split(f.cond.value), [], f.body, g);
      if fixed.clauses != [] {
        GenGrows(Join(fixed.clauses), false, true,
                 if f.pre.None? then fixed.gen else Hoist(f.pre.value, true, true, fixed.gen).gen);
      }
    }
  }

  lemma {:induction false} TestStep(f: ForStmt, g: nat, w: World, o: Ops)
    requires ReadyFor(f, g, o) && LogicalNot(o) && Ignores(f.body, g, w, o)
    ensures var n := RewriteTest(f, g);
            Matches(true, Clauses(f.cond), f.body, Clauses(n.f.cond), n.f.body, g, w, o)
  {
    GensGrow(f, g);
    if f.cond.Some? {
      var fixed := FixAndAnd(true, Split(f.cond.value), [], f.body, g);
      var g2 := if f.pre.None? then fixed.gen else Hoist(f.pre.value, true, true, fixed.gen).gen;
      LoopTestMatches(f.cond.value, f.body, g, g2, w, o);
    } else {
      forall s: Store, t: Store | Start(s, t, g)
        ensures Alike(Tested(true, [], f.body, s, w, o), Tested(true, [], f.body, t, w, o), g)
      {
        assert Alike(Run(f.body, s, w, o), Run(f.body, t, w, o), g);
      }
    }
  }

  lemma {:induction false} PostStep(post: Post, g: nat, h: nat, o: Ops)
    requires g <= h
    requires post.PostExpr? ==> WellSequenced(post.e) && Unused(Names(post.e), g)
    requires post.PostBlock? ==> Unused(BlockNames(post.list), g)
    ensures PostMatches(post, post, g, o)
    ensures PostMatches(post, RewritePost(post, h).0, g, o)
  {
    SamePost(post, g, o);
    if post.PostExpr? {
      NewPost(post.e, g, h, o);
    }
  }

  lemma {:induction false} PreStep(f: ForStmt, g: nat, s: Store, t: Store, o: Ops)
    requires ReadyParts(f, g) && SameBelow(s, t, g)
    ensures var n := RewriteTest(f, g);
            var s1 := if f.pre.None? then s else Eval(f.pre.value, s, o).1;
            var t0 := Exec(n.before, t, o);
            var t1 := if n.f.pre.None? then t0 else Eval(n.f.pre.value, t0, o).1;
            SameBelow(s1, t1, g)
  {
    GensGrow(f, g);
    if f.pre.Some? {
      var gf := if f.cond.None? then g else FixAndAnd(true, Split(f.cond.value), [], f.body, g).gen;
      HoistMeans(f.pre.value, true, true, gf, t, o);
      HoistFootprint(f.pre.value, true, true, gf);
      EvalBelow(f.pre.value, s, t, g, o);
    }
  }

  // ----- do, if, return and expression statements -----

  /** for (;;) { body; if (!x) break } */
  function RewriteDo(body: CStmt, x: Expr): ForStmt {
    ForStmt(None, None, NoPost, Block(ForceBlock(body).list + [If(Unary(Not, x), Break)]))
  }

  /** One round of the rewritten body: `continue` skips the test, which is now part of it. */
  lemma {:induction false} DoBody(body: CStmt, x: Expr, s: Store, w: World, o: Ops)
    requires LogicalNot(o)
    ensures var (out, s1) := Run(body, s, w, o);
            var (v, s2) := Eval(x, s1, o);
            Run(RewriteDo(body, x).body, s, w, o) ==
            if out == Normal then (if v == 0 then Broke else Normal, s2) else (out, s1)
  {
    var guard := If(Unary(Not, x), Break);
    var f := RewriteDo(body, x);
    var (out, s1) := Run(body, s, w, o);
    RunForced(body, s, w, o);
    RunListAppend(ForceBlock(body).list, [guard], s, w, o);
    RunOne([], guard, s1, w, o);
    assert Lift([]) + [guard] == [guard];
    RunGuard(x, s1, w, o);
    assert Run(f.body, s, w, o) == RunList(f.body.list, s, w, o);
  }

  lemma {:induction false} DoStep(body: CStmt, x: Expr, s: Store, fuel: nat, w: World, o: Ops)
    requires LogicalNot(o) && fuel > 0
    ensures var (out, s1) := Run(body, s, w, o);
            var (v, s2) := Eval(x, s1, o);
            RunFor(RewriteDo(body, x), s, fuel, w, o) ==
            if out == Broke then Some((Normal, s1))
            else if out == Normal && v == 0 then Some((Normal, s2))
            else if out == Normal then RunFor(RewriteDo(body, x), s2, fuel - 1, w, o)
            else if out == Continued then RunFor(RewriteDo(body, x), s1, fuel - 1, w, o)
            else Some((out, s1))
  {
    DoBody(body, x, s, w, o);
    var f := RewriteDo(body, x);
    assert Tested(true, [], f.body, s, w, o) == Run(f.body, s, w, o);
  }

  /** Where the body continues, the test is true, and running it once more in front of the
      loop would make no difference. */
  ghost predicate TestAgain(body: CStmt, x: Expr, w: World, o: Ops) {
    forall s: Store :: Run(body, s, w, o).0 == Continued ==> Skippable(body, x, Run(body, s, w, o).1, w, o)
  }

  ghost predicate Skippable(body: CStmt, x: Expr, s: Store, w: World, o: Ops) {
    var (v, s1) := Eval(x, s, o);
    v != 0 && forall fuel: nat :: SameDo(body, x, s1, s, fuel, w, o)
  }

  ghost predicate SameDo(body: CStmt, x: Expr, s: Store, t: Store, fuel: nat, w: World, o: Ops) {
    RunDo(body, x, s, fuel, w, o) == RunDo(body, x, t, fuel, w, o)
  }

  ghost predicate DoKept(body: CStmt, x: Expr, s: Store, fuel: nat, w: World, o: Ops) {
    RunFor(RewriteDo(body, x), s, fuel, w, o) == RunDo(body, x, s, fuel, w, o)
  }

  lemma {:induction false} DoRuns(body: CStmt, x: Expr, s: Store, fuel: nat, w: World, o: Ops)
    requires LogicalNot(o) && TestAgain(body, x, w, o)
    ensures DoKept(body, x, s, fuel, w, o)
  {
    if fuel > 0 {
      DoStep(body, x, s, fuel, w, o);
      var (out, s1) := Run(body, s, w, o);
      if out == Normal {
        DoRuns(body, x, Eval(x, s1, o).1, fuel - 1, w, o);
      } else if out == Continued {
        DoRuns(body, x, s1, fuel - 1, w, o);
        assert Skippable(body, x, s1, w, o);
        assert SameDo(body, x, Eval(x, s1, o).1, s1, fuel - 1, w, o);
      }
    }
  }

  /** The rewritten do loop runs the same, from every store and for any number of rounds,
      exactly when, wherever the body continues, the test could be skipped. */
  lemma {:induction false} DoMeans(body: CStmt, x: Expr, w: World, o: Ops)
    requires LogicalNot(o)
    ensures (forall s: Store, fuel: nat :: DoKept(body, x, s, fuel, w, o)) <==> TestAgain(body, x, w, o)
  {
    if TestAgain(body, x, w, o) {
      forall s: Store, fuel: nat ensures DoKept(body, x, s, fuel, w, o) {
        DoRuns(body, x, s, fuel, w, o);
      }
    }
    if forall s: Store, fuel: nat :: DoKept(body, x, s, fuel, w, o) {
      forall s: Store | Run(body, s, w, o).0 == Continued ensures Skippable(body, x, Run(body, s, w, o).1, w, o) {
        var s1 := Run(body, s, w, o).1;
        assert DoKept(body, x, s, 1, w, o);
        DoStep(body, x, s, 1, w, o);
        forall fuel: nat ensures SameDo(body, x, Eval(x, s1, o).1, s1, fuel, w, o) {
          DoStep(body, x, s, fuel + 1, w, o);
          assert DoKept(body, x, s, fuel + 1, w, o) && DoKept(body, x, s1, fuel, w, o);
        }
      }
    }
  }

  lemma {:induction false} PureTest(x: Expr, s: Store, o: Ops)
    requires Writes(x) == {}
    ensures Eval(x, s, o).1 == s
  {
    WritesOnly(x, s, o);
    var t := Eval(x, s, o).1;
    forall n: Name ensures t[n] == s[n] {
    }
  }

  ghost predicate ContinuesWhereTrue(body: CStmt, x: Expr, w: World, o: Ops) {
    forall s: Store :: Run(body, s, w, o).0 == Continued ==> Eval(x, Run(body, s, w, o).1, o).0 != 0
  }

  lemma {:induction false} PureTests(body: CStmt, x: Expr, w: World, o: Ops)
    requires Writes(x) == {}
    ensures TestAgain(body, x, w, o) <==> ContinuesWhereTrue(body, x, w, o)
  {
    forall s: Store | Run(body, s, w, o).0 == Continued
      ensures Skippable(body, x, Run(body, s, w, o).1, w, o) <==> Eval(x, Run(body, s, w, o).1, o).0 != 0
    {
      PureTest(x, Run(body, s, w, o).1, o);
    }
  }

  /** For a test without side effects: exactly when the body continues only where it is true. */
  lemma {:induction false} DoMeansPure(body: CStmt, x: Expr, w: World, o: Ops)
    requires LogicalNot(o) && Writes(x) == {}
    ensures (forall s: Store, fuel: nat :: DoKept(body, x, s, fuel, w, o)) <==> ContinuesWhereTrue(body, x, w, o)
  {
    DoMeans(body, x, w, o);
    PureTests(body, x, w, o);
  }

  /** do { continue } while (0) ends after one round, and its rewriting never does. */
  lemma {:induction false} DoContinueLost(w: World, o: Ops)
    requires LogicalNot(o)
    ensures !forall s: Store, fuel: nat :: DoKept(Continue, Number(0), s, fuel, w, o)
  {
    DoMeansPure(Continue, Number(0), w, o);
    var s: Store := imap x: Name :: Zero(x);
    assert Run(Continue, s, w, o) == (Continued, s);
    assert Eval(Number(0), s, o).0 == 0;
  }

  function Zero(x: Name): int { 0 }

  /** if (c) thn, without an else. */
  function RewriteIf(c: Expr, thn: CStmt, g: nat): (CStmt, nat) {
    var f := FixAndAnd(false, Split(c), [], thn, g);
    if f.clauses == [] then (If(c, thn), g)
    else
      var h := Hoist(Join(f.clauses), false, true, f.gen);
      (InFrontOf(h.before, If(h.e, f.body)), h.gen)
  }

  /** Statements in front of one, when there are any. */
  function InFrontOf(before: seq<Stmt>, st: CStmt): CStmt {
    if before == [] then st else BlockNoBrace(Lift(before) + [st])
  }

  lemma {:induction false} RunInFrontOf(before: seq<Stmt>, st: CStmt, s: Store, w: World, o: Ops)
    ensures Run(InFrontOf(before, st), s, w, o) == Run(st, Exec(before, s, o), w, o)
  {
    var list := Lift(before) + [st];
    assert RunList(list, s, w, o) == Run(st, Exec(before, s, o), w, o) by {
      RunOne(before, st, s, w, o);
    }
    assert Run(BlockNoBrace(list), s, w, o) == RunList(list, s, w, o);
    assert InFrontOf(before, st) == if before == [] then st else BlockNoBrace(list);
    assert before == [] ==> Exec(before, s, o) == s;
  }

  lemma {:induction false} RunIf(cs: seq<Expr>, thn: CStmt, s: Store, w: World, o: Ops)
    requires |cs| > 0
    ensures Run(If(Join(cs), thn), s, w, o) == Tested(false, cs, thn, s, w, o)
  {
    JoinMeans(cs, s, o);
  }

  /** Main result for an if with no else: same end and, outside the new temporaries, same store. */
  lemma {:induction false} IfMeans(c: Expr, thn: CStmt, g: nat, s: Store, t: Store, w: World, o: Ops)
    requires WellSequenced(c) && Unused(Names(c), g) && LogicalNot(o)
    requires Ignores(thn, g, w, o) && SameBelow(s, t, g)
    ensures Alike(Run(If(c, thn), s, w, o), Run(RewriteIf(c, thn, g).0, t, w, o), g)
  {
    var f := FixAndAnd(false, Split(c), [], thn, g);
    SplitReady(c, g);
    FixedMatches(false, Split(c), thn, g, g, w, o);
    HoistOfJoin(f.clauses, f.gen);
    var h := Hoist(f.clauses[0], false, true, f.gen);
    ClauseInFront(false, f.clauses[0], Split(c)[1..], thn, f.clauses[1..], f.body, f.gen, g, s, t, w, o);
    assert [f.clauses[0]] + Split(c)[1..] == Split(c);
    JoinOfSplit(c);
    RunIf(Split(c), thn, s, w, o);
    var left := [h.e] + f.clauses[1..];
    RunInFrontOf(h.before, If(Join(left), f.body), t, w, o);
    RunIf(left, f.body, Exec(h.before, t, o), w, o);
  }

  /** return e: the side effects of e go in front. */
  function RewriteReturn(e: Expr, g: nat): (CStmt, nat) {
    var h := Hoist(e, false, true, g);
    (InFrontOf(h.before, Return(h.e)), h.gen)
  }

  lemma {:induction false} ReturnMeans(e: Expr, g: nat, s: Store, t: Store, w: World, o: Ops)
    requires WellSequenced(e) && Unused(Names(e), g) && SameBelow(s, t, g)
    ensures Alike(Run(Return(e), s, w, o), Run(RewriteReturn(e, g).0, t, w, o), g)
  {
    var h := Hoist(e, false, true, g);
    ClauseMeans(e, g, g, s, t, o);
    RunInFrontOf(h.before, Return(h.e), t, w, o);
  }

  /** if (c) thn else els: the side effects of c go in front. */
  function RewriteIfElse(c: Expr, thn: CStmt, els: CStmt, g: nat): (CStmt, nat) {
    var h := Hoist(c, false, true, g);
    (InFrontOf(h.before, IfWithElse(h.e, thn, els)), h.gen)
  }

  lemma {:induction false} IfElseMeans(c: Expr, thn: CStmt, els: CStmt, g: nat, s: Store, t: Store, w: World, o: Ops)
    requires WellSequenced(c) && Unused(Names(c), g) && SameBelow(s, t, g)
    requires Ignores(thn, g, w, o) && Ignores(els, g, w, o)
    ensures Alike(Run(IfWithElse(c, thn, els), s, w, o), Run(RewriteIfElse(c, thn, els, g).0, t, w, o), g)
  {
    var h := Hoist(c, false, true, g);
    var s1, t0 := Eval(c, s, o).1, Exec(h.before, t, o);
    var t1 := Eval(h.e, t0, o).1;
    ClauseMeans(c, g, g, s, t, o);
    assert Start(s1, t1, g);
    assert Alike(Run(thn, s1, w, o), Run(thn, t1, w, o), g) && Alike(Run(els, s1, w, o), Run(els, t1, w, o), g);
    RunInFrontOf(h.before, IfWithElse(h.e, thn, els), t, w, o);
    ArmsAlike(c, h.e, thn, els, g, s, t0, w, o);
  }

  lemma {:induction false} ArmsAlike(c: Expr, c': Expr, thn: CStmt, els: CStmt, g: nat, s: Store, t: Store, w: World,
                                     o: Ops)
    requires Eval(c, s, o).0 == Eval(c', t, o).0
    requires var s1, t1 := Eval(c, s, o).1, Eval(c', t, o).1;
             Alike(Run(thn, s1, w, o), Run(thn, t1, w, o), g) && Alike(Run(els, s1, w, o), Run(els, t1, w, o), g)
    ensures Alike(Run(IfWithElse(c, thn, els), s, w, o), Run(IfWithElse(c', thn, els), t, w, o), g)
  {
  }

  /** An expression statement: what runs before it, what is left of it, what runs after it. */
  function RewriteExprStmt(e: Expr, g: nat): (CStmt, nat) {
    var h := Hoist(e, true, false, g);
    (if h.before == [] && h.after == [] then Simple(ExprStmt(h.e))
     else BlockNoBrace(Lift(h.before + [ExprStmt(h.e)] + h.after)), h.gen)
  }

  lemma {:induction false} ExprStmtMeans(e: Expr, g: nat, s: Store, t: Store, w: World, o: Ops)
    requires WellSequenced(e) && Unused(Names(e), g) && SameBelow(s, t, g)
    ensures Alike(Run(Simple(ExprStmt(e)), s, w, o), Run(RewriteExprStmt(e, g).0, t, w, o), g)
  {
    var h := Hoist(e, true, false, g);
    assert SameBelow(Eval(e, s, o).1, RunHoisted(h, t, o).1, g) by {
      HoistMeans(e, true, false, g, t, o);
      EvalBelow(e, s, t, g, o);
    }
    RunPieces(h, t, w, o);
  }

  lemma {:induction false} RunPieces(h: Hoisted, t: Store, w: World, o: Ops)
    ensures Run(if h.before == [] && h.after == [] then Simple(ExprStmt(h.e))
                else BlockNoBrace(Lift(h.before + [ExprStmt(h.e)] + h.after)), t, w, o)
            == (Normal, RunHoisted(h, t, o).1)
  {
    var all := h.before + [ExprStmt(h.e)] + h.after;
    RunAround(h, t, o);
    RunLifted(all, [], t, w, o);
    assert Lift(all) + [] == Lift(all);
    assert RunList(Lift(all), t, w, o) == (Normal, Exec(all, t, o));
  }

  /** v := e, with what has to run before and after it. */
  function RewriteDecl(v: Name, e: Expr, g: nat): (CStmt, nat) {
    var h := Hoist(e, true, false, g);
    (if h.before == [] && h.after == [] then Declare(v, h.e)
     else BlockNoBrace(Lift(h.before) + ([Declare(v, h.e)] + Lift(h.after))), h.gen)
  }

  /** The initialiser of a declaration is rewritten as if its value were not needed, so that
      an assignment or increment at its top stays there, which Go's grammar does not have in
      an expression. Otherwise, and if it does not mention v, the declaration runs the same;
      types and scopes are the subject of Typing. */
  lemma {:induction false} DeclMeans(v: Name, e: Expr, g: nat, s: Store, t: Store, w: World, o: Ops)
    requires WellSequenced(e) && Unused(Names(e) + {v}, g) && v !in Names(e) && SameBelow(s, t, g)
    ensures Residual(Hoist(e, true, false, g).e) <==> !e.Assign? && !e.IncDec?
    ensures Residual(Hoist(e, true, false, g).e) ==>
              Alike(Run(Declare(v, e), s, w, o), Run(RewriteDecl(v, e, g).0, t, w, o), g)
  {
    if !e.Assign? && !e.IncDec? {
      InitialiserMeans(v, e, g, s, t, o);
      RunDecl(v, Hoist(e, true, false, g), t, w, o);
      var (x, t1) := RunHoisted(Hoist(e, true, false, g), t, o);
      assert Run(Declare(v, e), s, w, o) == (Normal, Eval(e, s, o).1[v := x]);
      assert Run(RewriteDecl(v, e, g).0, t, w, o) == (Normal, t1[v := x]);
    }
  }

  lemma {:induction false} InitialiserMeans(v: Name, e: Expr, g: nat, s: Store, t: Store, o: Ops)
    requires WellSequenced(e) && Unused(Names(e), g) && v !in Names(e) && SameBelow(s, t, g)
    requires !e.Assign? && !e.IncDec?
    ensures var h := Hoist(e, true, false, g);
            var (x, t1) := RunHoisted(h, t, o);
            && Residual(h.e) && v !in BlockNames(h.after)
            && Eval(e, s, o).0 == x && SameBelow(Eval(e, s, o).1, t1, g)
  {
    assert Hoist(e, true, false, g) == Hoist(e, false, false, g);
    HoistLeavesResidual(e, false, g);
    HoistMeans(e, false, false, g, t, o);
    HoistFootprint(e, false, false, g);
    WritesAreNames(e);
    EvalBelow(e, s, t, g, o);
  }

  lemma {:induction false} RunDecl(v: Name, h: Hoisted, t: Store, w: World, o: Ops)
    requires v !in BlockNames(h.after)
    ensures var (x, t1) := RunHoisted(h, t, o);
            Run(if h.before == [] && h.after == [] then Declare(v, h.e)
                else BlockNoBrace(Lift(h.before) + ([Declare(v, h.e)] + Lift(h.after))), t, w, o) ==
                    (Normal, t1[v := x])
  {
    if h.before != [] || h.after != [] {
      var list := [Declare(v, h.e)] + Lift(h.after);
      RunLifted(h.before, list, t, w, o);
      DeclThen(v, h, Exec(h.before, t, o), w, o);
    }
  }

  lemma {:induction false} DeclThen(v: Name, h: Hoisted, t: Store, w: World, o: Ops)
    requires v !in BlockNames(h.after)
    ensures var (x, t1) := Eval(h.e, t, o);
            RunList([Declare(v, h.e)] + Lift(h.after), t, w, o) == (Normal, Exec(h.after, t1, o)[v := x])
  {
    var (x, t1) := Eval(h.e, t, o);
    var list := [Declare(v, h.e)] + Lift(h.after);
    BlockThenStore(h.after, v, x, t1, o);
    assert list[1..] == Lift(h.after);
    RunLifted(h.after, [], t1[v := x], w, o);
    assert Lift(h.after) + [] == Lift(h.after);
  }

  // ----- clauses that are lost -----

  lemma {:induction false} EvalAllWrites(cs: seq<Expr>, s: Store, n: Name, o: Ops)
    requires forall k :: 0 <= k < |cs| ==> n !in Writes(cs[k])
    ensures EvalAll(cs, s, o).1[n] == s[n]
  {
    if cs != [] {
      WritesOnly(cs[0], s, o);
      EvalAllWrites(cs[1..], Eval(cs[0], s, o).1, n, o);
    }
  }

  /** A world in which the statements not taken apart return at once. */
  ghost function Returning(): World {
    World((id, s) => (Returned(0), s), 1)
  }

  /** From every store at its head, and for any number of rounds, the rewritten loop ends
      like the original, or has not ended either. */
  ghost predicate LoopKept(f: ForStmt, g: nat, w: World, o: Ops) {
    var n := RewriteTest(f, g).f;
    forall s: Store, t: Store, fuel: nat :: Start(s, t, g) ==>
      BothAlike(RunLoop(f.cond, f.post, f.body, s, fuel, w, o), RunLoop(n.cond, n.post, n.body, t, fuel, w, o), g)
  }

  /** A loop over a statement that is no block, whatever the statement does, is kept exactly
      when the clauses it loses are idle wherever the others are true. */
  lemma {:induction false} UnbracedMeans(f: ForStmt, g: nat, o: Ops)
    requires ReadyParts(f, g) && LogicalNot(o) && f.cond.Some? && f.body.Other?
    ensures (forall w: World :: Blind(w) ==> LoopKept(f, g, w, o)) <==> LosesNothing(f.cond.value, f.body, o)
  {
    if LosesNothing(f.cond.value, f.body, o) {
      forall w: World | Blind(w) ensures LoopKept(f, g, w, o) {
        Ignored(f.body, g, w, o);
        TestStep(f, g, w, o);
        SamePost(f.post, g, o);
        var n := RewriteTest(f, g).f;
        forall s: Store, t: Store, fuel: nat | Start(s, t, g)
          ensures BothAlike(RunLoop(f.cond, f.post, f.body, s, fuel, w, o),
                            RunLoop(n.cond, n.post, n.body, t, fuel, w, o), g)
        {
          LoopsMatch(f.cond, f.post, f.body, n.cond, n.post, n.body, s, t, fuel, g, w, o);
        }
      }
    }
    if forall w: World :: Blind(w) ==> LoopKept(f, g, w, o) {
      assert Blind(Returning());
      assert LoopKept(f, g, Returning(), o);
      forall s: Store | EvalAll(KeptClauses(f.cond.value, f.body), s, o).0
        ensures LostIdle(f.cond.value, f.body, EvalAll(KeptClauses(f.cond.value, f.body), s, o).1, o)
      {
        LossShows(f, g, s, o);
      }
    }
  }

  lemma {:induction false} KeptStep(f: ForStmt, g: nat, w: World, o: Ops)
    requires ReadyParts(f, g) && LogicalNot(o) && f.cond.Some? && Ignores(f.body, g, w, o)
    ensures var n := RewriteTest(f, g).f;
            Matches(true, KeptClauses(f.cond.value, f.body), f.body, Clauses(n.cond), n.body, g, w, o)
  {
    GensGrow(f, g);
    var fixed := FixAndAnd(true, Split(f.cond.value), [], f.body, g);
    var g2 := if f.pre.None? then fixed.gen else Hoist(f.pre.value, true, true, fixed.gen).gen;
    KeptTestMatches(f.cond.value, f.body, g, g2, w, o);
  }

  /** When one round tells, the tests and bodies end alike. */
  lemma {:induction false} FirstRounds(f: ForStmt, n: ForStmt, s: Store, g: nat, w: World, o: Ops)
    requires BothAlike(RunLoop(f.cond, f.post, f.body, s, 1, w, o), RunLoop(n.cond, n.post, n.body, s, 1, w, o), g)
    requires Tested(true, Clauses(n.cond), n.body, s, w, o).0.Returned?
    ensures Alike(Tested(true, Clauses(f.cond), f.body, s, w, o), Tested(true, Clauses(n.cond), n.body, s, w, o), g)
  {
    var s1, t1 := Tested(true, Clauses(f.cond), f.body, s, w, o).1, Tested(true, Clauses(n.cond), n.body, s, w, o).1;
    assert RunLoop(f.cond, f.post, f.body, RunPost(f.post, s1, o), 0, w, o) == None;
    assert RunLoop(n.cond, n.post, n.body, RunPost(n.post, t1, o), 0, w, o) == None;
  }

  lemma {:induction false} LostNames(e: Expr, body: CStmt, g: nat, x: Name)
    requires WellSequenced(e) && Unused(Names(e), g) && x.Tmp? && x.n >= g
    ensures forall k :: 0 <= k < |LostClauses(e, body)| ==> x !in Writes(LostClauses(e, body)[k])
  {
    SplitReady(e, g);
    var kept, lost := KeptClauses(e, body), LostClauses(e, body);
    forall k | 0 <= k < |lost| ensures x !in Writes(lost[k]) {
      assert lost[k] == (kept + lost)[|kept| + k] == Split(e)[|kept| + k];
      WritesAreNames(lost[k]);
    }
  }

  /** while (1 && (y = 0)) f(); loses its second clause. */
  lemma {:induction false} UnbracedLost(id: nat, o: Ops)
    requires LogicalNot(o)
    ensures var x, y := Number(1), Assign(Set, User("y"), Number(0));
            !forall w: World :: Blind(w) ==> LoopKept(ForStmt(None, Some(AndAnd(x, y)), NoPost, Other(id)), 1, w, o)
  {
    var x, y := Number(1), Assign(Set, User("y"), Number(0));
    var e, body := AndAnd(x, y), Other(id);
    UnbracedMeans(ForStmt(None, Some(e), NoPost, body), 1, o);
    SecondLost(x, y, 0, id);
    var s: Store := imap n: Name :: Zero(n);
    OneThenZero(s, o);
    assert !LostIdle(e, body, s, o);
  }

  lemma {:induction false} OneThenZero(s: Store, o: Ops)
    ensures EvalAll([Number(1)], s, o) == (true, s)
    ensures !EvalAll([Assign(Set, User("y"), Number(0))], s, o).0
  {
    EvalOne(Number(1), s, o);
    EvalOne(Assign(Set, User("y"), Number(0)), s, o);
    assert Eval(Number(1), s, o) == (1, s) && Eval(Number(0), s, o) == (0, s);
  }

  /** Of two clauses, the first without && and the second an assignment, the second is lost. */
  lemma {:induction false} SecondLost(x: Expr, y: Expr, v: int, id: nat)
    requires x.Number? && y == Assign(Set, User("y"), Number(v))
    ensures KeptClauses(AndAnd(x, y), Other(id)) == [x] && LostClauses(AndAnd(x, y), Other(id)) == [y]
  {
    assert Hoist(y, false, true, 0).before == [ExprStmt(y)];
    assert Split(AndAnd(x, y)) == [x, y] && [x, y][1] == y && Hoists([x, y][1]);
    assert KeptCount([x, y]) == 1;
  }

  /** A clause that is lost where it matters shows in the first round. */
  lemma {:induction false} LossShows(f: ForStmt, g: nat, s: Store, o: Ops)
    requires ReadyParts(f, g) && LogicalNot(o) && f.cond.Some? && f.body.Other?
    requires LoopKept(f, g, Returning(), o) && EvalAll(KeptClauses(f.cond.value, f.body), s, o).0
    ensures LostIdle(f.cond.value, f.body, EvalAll(KeptClauses(f.cond.value, f.body), s, o).1, o)
  {
    var w, n := Returning(), RewriteTest(f, g).f;
    Ignored(f.body, g, w, o);
    KeptStep(f, g, w, o);
    assert Start(s, s, g);
    LossShowsAt(f, n, g, s, o);
  }

  lemma {:induction false} LossShowsAt(f: ForStmt, n: ForStmt, g: nat, s: Store, o: Ops)
    requires ReadyParts(f, g) && f.cond.Some? && f.body.Other?
    requires BothAlike(RunLoop(f.cond, f.post, f.body, s, 1, Returning(), o),
                       RunLoop(n.cond, n.post, n.body, s, 1, Returning(), o), g)
    requires Alike(Tested(true, KeptClauses(f.cond.value, f.body), f.body, s, Returning(), o),
                   Tested(true, Clauses(n.cond), n.body, s, Returning(), o), g)
    requires EvalAll(KeptClauses(f.cond.value, f.body), s, o).0
    ensures LostIdle(f.cond.value, f.body, EvalAll(KeptClauses(f.cond.value, f.body), s, o).1, o)
  {
    var e, w := f.cond.value, Returning();
    var s1 := EvalAll(KeptClauses(e, f.body), s, o).1;
    assert Tested(true, KeptClauses(e, f.body), f.body, s, w, o) == (Returned(0), s1);
    FirstRounds(f, n, s, g, w, o);
    LostMeans(e, f.body, s, w, o);
    SameStores(e, f.body, g, s1, o);
  }

  lemma {:induction false} SameStores(e: Expr, body: CStmt, g: nat, s: Store, o: Ops)
    requires WellSequenced(e) && Unused(Names(e), g)
    requires SameBelow(EvalAll(LostClauses(e, body), s, o).1, s, g)
    ensures EvalAll(LostClauses(e, body), s, o).1 == s
  {
    var t := EvalAll(LostClauses(e, body), s, o).1;
    forall x: Name ensures s[x] == t[x] {
      if x.Tmp? && x.n >= g {
        LostNames(e, body, g, x);
        EvalAllWrites(LostClauses(e, body), s, x, o);
      }
    }
  }

  // ----- the program -----

  function Reversed<T>(s: seq<T>): seq<T> {
    if s == [] then [] else Reversed(s[1..]) + [s[0]]
  }

  lemma {:induction false} ReversedAt<T>(s: seq<T>)
    ensures |Reversed(s)| == |s| && forall k :: 0 <= k < |s| ==> Reversed(s)[k] == s[|s| - 1 - k]
  {
    if s != [] {
      ReversedAt(s[1..]);
    }
  }

  lemma {:induction false} ReversedAppend<T>(s: seq<T>, x: T)
    ensures Reversed(s + [x]) == [x] + Reversed(s)
  {
    if s == [] {
      assert [x][1..] == [];
    } else {
      ReversedAppend(s[1..], x);
      assert (s + [x])[1..] == s[1..] + [x];
    }
  }

  method SplitExpr(e: Expr) returns (list: seq<Expr>)
    ensures list == Split(e)
  {
    var x := e;
    list := [];
    while x.AndAnd?
      invariant Split(e) == Split(x) + Reversed(list)
      decreases x
    {
      ReversedAppend(list, x.r);
      list := list + [x.r];
      x := x.l;
    }
    ReversedAppend(list, x);
    list := Reverse(list + [x]);
  }

  method Reverse<T>(s: seq<T>) returns (list: seq<T>)
    ensures list == Reversed(s)
  {
    list := s;
    ReversedAt(s);
    var i, j := 0, |list| - 1;
    while i < j
      invariant 0 <= i <= j + 1 && i + j == |list| - 1 && |list| == |s|
      invariant forall k :: 0 <= k < i ==> list[k] == s[|s| - 1 - k]
      invariant forall k :: j < k < |list| ==> list[k] == s[|s| - 1 - k]
      invariant forall k :: i <= k <= j ==> list[k] == s[k]
    {
      list := list[i := list[j]][j := list[i]];
      i, j := i + 1, j - 1;
    }
  }

  method JoinExpr(list: seq<Expr>) returns (x: Expr)
    requires |list| > 0
    ensures x == Join(list)
  {
    x := list[0];
    for i := 1 to |list|
      invariant x == Join(list[..i])
    {
      x := AndAnd(x, list[i]);
      assert list[..i + 1][..i] == list[..i];
    }
    assert list[..|list|] == list;
  }

  /** A for statement, rewritten in place. */
  class ForNode {
    var pre: Option<Expr>
    var cond: Option<Expr>
    var post: Post
    var body: CStmt

    constructor (f: ForStmt)
      ensures Value() == f
    {
      pre, cond, post, body := f.pre, f.cond, f.post, f.body;
    }

    ghost function Value(): ForStmt
      reads this
    {
      ForStmt(pre, cond, post, body)
    }

    /** Puts statements and a test at the top of the body, if it is a block. */
    method Guard(before: seq<Stmt>, test: Expr)
      modifies this`body
      ensures body == InFront(true, before, test, old(body))
    {
      if body.Block? {
        body := Block([BlockNoBrace(Lift(before) + [If(Unary(Not, test), Break)])] + body.list);
      }
    }

    method FixForAndAnd(rw: Rewriter)
      modifies this, rw
      ensures cond.Some? == old(cond.Some?) && pre == old(pre) && post == old(post)
      ensures cond.None? ==> body == old(body) && rw.gen == old(rw.gen)
      ensures cond.Some? ==>
                var f := FixAndAnd(true, Split(old(cond).value), [], old(body), old(rw.gen));
                f.clauses != [] && cond.value == Join(f.clauses) && body == f.body && rw.gen == f.gen
    {
      if cond.None? {
        return;
      }
      var clauses := SplitExpr(cond.value);
      ghost var f := FixAndAnd(true, clauses, [], body, rw.gen);
      var i := |clauses| - 1;
      assert clauses[..i + 1] == clauses;
      while i > 0
        invariant 0 <= i < |clauses| && pre == old(pre) && post == old(post) && cond == old(cond)
        invariant FixAndAnd(true, clauses[..i + 1], clauses[i + 1..], body, rw.gen) == f
      {
        assert clauses[..i + 1][..i] == clauses[..i];
        var e, before, _ := rw.ExtractSideEffects(clauses[i], false, true);
        var rest := [e] + clauses[i + 1..];
        if before == [] {
          clauses := clauses[..i] + rest;
          assert clauses[i..] == rest && clauses[..i - 1 + 1] == clauses[..i];
        } else {
          var test := JoinExpr(rest);
          Guard(before, test);
          clauses := clauses[..i];
          assert clauses[i..] == [] && clauses[..i - 1 + 1] == clauses;
        }
        i := i - 1;
      }
      assert clauses[..1] + clauses[1..] == clauses;
      var test := JoinExpr(clauses);
      cond := Some(test);
    }

    /** Rewrites the statement, and returns what has to run before it. */
    method Rewrite(rw: Rewriter) returns (before: seq<Stmt>)
      modifies this, rw
      ensures RewriteFor(old(Value()), old(rw.gen)) == NewFor(before, Value(), rw.gen)
    {
      FixForAndAnd(rw);
      before := [];
      if pre.Some? {
        var e, b, _ := rw.ExtractSideEffects(pre.value, true, true);
        pre, before := Some(e), b;
      }
      if cond.Some? {
        var e, b, _ := rw.ExtractSideEffects(cond.value, false, true);
        cond := Some(e);
        if b != [] {
          cond := None;
          body := Block(Lift(b) + [If(Unary(Not, e), Break)] + ForceBlock(body).list);
        }
      }
      if before == [] && post.PostExpr? {
        var e, b, a := rw.ExtractSideEffects(post.e, true, false);
        post := if b == [] && a == [] then PostExpr(e) else PostBlock(b + [ExprStmt(e)] + a);
      }
    }
  }

  /** An if statement without else, rewritten in place. */
  class IfNode {
    var c: Expr
    var thn: CStmt

    constructor (test: Expr, body: CStmt)
      ensures c == test && thn == body
    {
      c, thn := test, body;
    }

    method FixIfAndAnd(rw: Rewriter)
      modifies this, rw
      ensures var f := FixAndAnd(false, Split(old(c)), [], old(thn), old(rw.gen));
              f.clauses != [] && c == Join(f.clauses) && thn == f.body && rw.gen == f.gen
    {
      var clauses := SplitExpr(c);
      ghost var f := FixAndAnd(false, clauses, [], thn, rw.gen);
      var i := |clauses| - 1;
      assert clauses[..i + 1] == clauses;
      while i > 0
        invariant 0 <= i < |clauses|
        invariant FixAndAnd(false, clauses[..i + 1], clauses[i + 1..], thn, rw.gen) == f
      {
        assert clauses[..i + 1][..i] == clauses[..i];
        var e, before, _ := rw.ExtractSideEffects(clauses[i], false, true);
        var rest := [e] + clauses[i + 1..];
        if before == [] {
          clauses := clauses[..i] + rest;
          assert clauses[i..] == rest && clauses[..i - 1 + 1] == clauses[..i];
        } else {
          var test := JoinExpr(rest);
          thn := BlockNoBrace(Lift(before) + [If(test, thn)]);
          clauses := clauses[..i];
          assert clauses[i..] == [] && clauses[..i - 1 + 1] == clauses;
        }
        i := i - 1;
      }
      assert clauses[..1] + clauses[1..] == clauses;
      c := JoinExpr(clauses);
    }

    method Rewrite(rw: Rewriter) returns (st: CStmt)
      modifies this, rw
      ensures RewriteIf(old(c), old(thn), old(rw.gen)) == (st, rw.gen)
    {
      FixIfAndAnd(rw);
      var e, before, _ := rw.ExtractSideEffects(c, false, true);
      c := e;
      st := InFrontOf(before, If(c, thn));
    }
  }
}
