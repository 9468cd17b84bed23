/** Turning a C switch, whose clauses fall through, into a Go switch, whose clauses do not. */
module Switch {

  datatype Label = Case(v: int) | Default | Named(name: string)

  /** What a statement does. `Mention` is an expression statement that is a bare name;
      `Other` is any statement not told apart here, which may end in any way. */
  datatype Kind =
    | Empty
    | Break
    | Continue
    | Return(id: nat)
    | Goto(target: string)
    | Call(callee: string, id: nat)
    | Mention(text: string)
    | Other(id: nat)
    | Fallthrough

  datatype Stmt = Stmt(labels: seq<Label>, kind: Kind)

  const NOTHING := Stmt([], Empty)

  /** A statement of the body before inlining: a block without braces holds several. */
  datatype Node = Single(st: Stmt) | NoBrace(labels: seq<Label>, list: seq<Stmt>)

  /** What has been observed so far. */
  type State = seq<int>

  datatype Outcome = Normal | Broke | Continued | Returned | WentTo(target: string) | Halted

  /** What the statements not taken apart do; a call may fail to return. */
  datatype World = World(other: (nat, State) -> (Outcome, State),
                         call: (string, nat, State) -> (bool, State),
                         value: (nat, State) -> State)

  predicate Fatal(callee: string) {
    callee == "sysfatal" || callee == "fatal"
  }

  ghost predicate FatalNeverReturns(w: World) {
    forall f, id, s :: Fatal(f) ==> !w.call(f, id, s).0
  }

  function Do(k: Kind, s: State, w: World): (Outcome, State) {
    match k
    case Empty => (Normal, s)
    case Break => (Broke, s)
    case Continue => (Continued, s)
    case Return(id) => (Returned, w.value(id, s))
    case Goto(l) => (WentTo(l), s)
    case Call(f, id) => (if w.call(f, id, s).0 then Normal else Halted, w.call(f, id, s).1)
    case Mention(_) => (Normal, s)
    case Other(id) => w.other(id, s)
    case Fallthrough => (Normal, s)
  }

  /** A case or default label makes the statement the start of a clause. */
  ghost predicate IsCase(labels: seq<Label>) {
    exists l :: l in labels && !l.Named?
  }

  // ----- running the two kinds of switch -----

  /** How far a run has come: looking for its label, in the middle of a clause, just past a
      fallthrough, out of the switch at the end of a clause, ended in another way, or not
      a Go program. */
  datatype Status =
    | Waiting(s: State)
    | Running(s: State)
    | Falling(s: State)
    | Left(s: State)
    | Done(out: Outcome, s: State)
    | Rejected

  function RunOne(k: Kind, s: State, w: World): Status {
    var (o, s1) := Do(k, s, w);
    if o == Normal then Running(s1) else Done(o, s1)
  }

  function StepC(g: Status, x: Stmt, l: Label, w: World): Status {
    if g.Running? || (g.Waiting? && l in x.labels) then RunOne(x.kind, g.s, w) else g
  }

  /** C: from the label on, one statement after the other, across clauses. */
  function RunC(list: seq<Stmt>, g: Status, l: Label, w: World): Status {
    if list == [] then g else StepC(RunC(list[..|list| - 1], g, l, w), list[|list| - 1], l, w)
  }

  predicate IsFall(k: Kind) {
    k == Fallthrough || k == Mention("fallthrough")
  }

  function RunOneGo(k: Kind, s: State, w: World): Status {
    if IsFall(k) then Falling(s) else RunOne(k, s, w)
  }

  /** Printed, adjacent case labels make one clause, and so do cases followed by default; a
      case after default starts another, and leaves the one before it empty. The label
      leads to the statement when no further clause starts after it. */
  ghost predicate Reaches(labels: seq<Label>, l: Label) {
    exists j :: 0 <= j < |labels| && labels[j] == l && NothingAfterDefault(labels, j)
  }

  ghost predicate NothingAfterDefault(labels: seq<Label>, j: nat) {
    forall b :: j <= b < |labels| - 1 && labels[b] == Default ==> labels[b + 1].Named?
  }

  /** Go: reaching the next clause ends the switch, unless by a fallthrough, which has to
      be the last statement of its clause. */
  ghost function StepGo(g: Status, x: Stmt, l: Label, w: World): Status {
    match g
    case Waiting(s) =>
      if l !in x.labels then g else if Reaches(x.labels, l) then RunOneGo(x.kind, s, w) else Left(s)
    case Running(s) => if IsCase(x.labels) then Left(s) else RunOneGo(x.kind, s, w)
    case Falling(s) =>
      if IsCase(x.labels) then if NothingAfterDefault(x.labels, 0) then RunOneGo(x.kind, s, w) else Left(s)
      else if x == NOTHING then g else Rejected
    case _ => g
  }

  ghost function RunGo(list: seq<Stmt>, g: Status, l: Label, w: World): Status {
    if list == [] then g else StepGo(RunGo(list[..|list| - 1], g, l, w), list[|list| - 1], l, w)
  }

  /** How the switch statement as a whole ends. */
  datatype Result = Ends(out: Outcome, s: State) | NoProgram

  function Finish(g: Status): Result {
    match g
    case Waiting(s) => Ends(Normal, s)
    case Running(s) => Ends(Normal, s)
    case Left(s) => Ends(Normal, s)
    case Done(o, s) => Ends(if o == Broke then Normal else o, s)
    case Falling(_) => NoProgram
    case Rejected => NoProgram
  }

  function SwitchC(list: seq<Stmt>, l: Label, s: State, w: World): Result {
    Finish(RunC(list, Waiting(s), l, w))
  }

  ghost function SwitchGo(list: seq<Stmt>, l: Label, s: State, w: World): Result {
    Finish(RunGo(list, Waiting(s), l, w))
  }

  // ----- the rewriting -----

  function InlinedOne(n: Node): seq<Stmt> {
    match n
    case Single(st) => [st]
    case NoBrace(labels, list) => [Stmt(labels, Empty)] + list
  }

  function Inlined(nodes: seq<Node>): seq<Stmt> {
    if nodes == [] then []
    else Inlined(nodes[..|nodes| - 1]) + InlinedOne(nodes[|nodes| - 1])
  }

  predicate FallsThrough(k: Kind) {
    match k
    case Break => false
    case Continue => false
    case Return(_) => false
    case Goto(_) => false
    case Call(f, _) => !Fatal(f)
    case Mention(t) => t != "fallthrough"
    case _ => true
  }

  function Cases(labels: seq<Label>): seq<Label> {
    if labels == [] then []
    else Cases(labels[..|labels| - 1]) + (if labels[|labels| - 1].Case? then [labels[|labels| - 1]] else [])
  }

  function Names(labels: seq<Label>): seq<Label> {
    if labels == [] then []
    else Names(labels[..|labels| - 1]) + (if labels[|labels| - 1].Named? then [labels[|labels| - 1]] else [])
  }

  /** Cases first, then default, then names; only done when there are both cases and names. */
  function Relabelled(labels: seq<Label>): seq<Label> {
    var cases := Cases(labels) + if Default in labels then [Default] else [];
    if cases != [] && Names(labels) != [] then cases + Names(labels) else labels
  }

  /** The last statement that is not empty; an empty one if there is none. */
  function LastUsed(out: seq<Stmt>): Stmt {
    if out == [] then NOTHING
    else if out[|out| - 1].kind != Empty then out[|out| - 1]
    else LastUsed(out[..|out| - 1])
  }

  predicate PlainBreak(st: Stmt) {
    st.kind == Break && st.labels == []
  }

  /** A break without labels at the end becomes an empty statement. */
  function WithoutBreak(out: seq<Stmt>): (r: seq<Stmt>)
    ensures |r| == |out|
  {
    if out == [] then []
    else
      var n := |out| - 1;
      if out[n].kind == Empty then WithoutBreak(out[..n]) + [out[n]]
      else if PlainBreak(out[n]) then out[..n] + [NOTHING]
      else out
  }

  /** The end of a clause, with another to follow. */
  function Closed(out: seq<Stmt>): seq<Stmt> {
    var x := LastUsed(out);
    if PlainBreak(x) then WithoutBreak(out)
    else if x.kind != Empty && FallsThrough(x.kind) then out + [Stmt([], Fallthrough)]
    else out
  }

  /** The statements before the current clause, and the current clause. */
  datatype Built = Built(closed: seq<Stmt>, clause: seq<Stmt>, have: bool) {
    function Out(): seq<Stmt> { closed + clause }
  }

  function Renamed(st: Stmt): Stmt {
    st.(labels := Relabelled(st.labels))
  }

  ghost function Push(b: Built, st: Stmt): Built {
    if IsCase(st.labels) then Built(if b.have then Closed(b.Out()) else b.Out(), [Renamed(st)], true)
    else b.(clause := b.clause + [st])
  }

  ghost function Build(list: seq<Stmt>): Built {
    if list == [] then Built([], [], false) else Push(Build(list[..|list| - 1]), list[|list| - 1])
  }

  ghost function Rewritten(list: seq<Stmt>): seq<Stmt> {
    WithoutBreak(Build(list).Out())
  }

  // ----- when the rewriting is right -----

  /** A C run of these statements does nothing but leave the switch. */
  predicate Idle(rest: seq<Stmt>) {
    rest == [] || rest[0].kind == Break ||
    ((rest[0].kind == Empty || rest[0].kind.Mention?) && Idle(rest[1..]))
  }

  /** Empty statements, then a clause. */
  ghost predicate FallsInto(rest: seq<Stmt>) {
    rest != [] && (IsCase(rest[0].labels) || (rest[0] == NOTHING && FallsInto(rest[1..])))
  }

  /** The word fallthrough stands where Go wants it. */
  ghost predicate Usable(x: Stmt, after: seq<Stmt>) {
    x.kind != Fallthrough && (IsFall(x.kind) ==> FallsInto(after))
  }

  ghost predicate Placed(list: seq<Stmt>) {
    forall i :: 0 <= i < |list| ==> Usable(list[i], list[i + 1..])
  }

  predicate AllEmpty(list: seq<Stmt>) {
    list == [] || (list[|list| - 1].kind == Empty && AllEmpty(list[..|list| - 1]))
  }

  /** Looking back from the end of a clause of empty statements only, the rewriter finds
      a statement of an earlier clause: it has to be one that falls through. */
  ghost predicate ClauseGood(b: Built) {
    b.have && AllEmpty(b.clause) ==> LastUsed(b.Out()).kind != Empty && FallsThrough(LastUsed(b.Out()).kind)
  }

  /** Once relabelled, default is the last of the labels, or names follow it. */
  ghost predicate LabelsGood(labels: seq<Label>) {
    NothingAfterDefault(Relabelled(labels), 0)
  }

  /** At a case: the clause before it falls into it if it should, and all its labels lead
      to it; or what is then missed does nothing. */
  ghost predicate GoodAt(b: Built, x: Stmt, after: seq<Stmt>) {
    IsCase(x.labels) ==> Idle([x] + after) || (ClauseGood(b) && LabelsGood(x.labels))
  }

  ghost predicate GoodBefore(list: seq<Stmt>, n: nat)
    requires n <= |list|
  {
    forall k :: 0 <= k < n ==> GoodAt(Build(list[..k]), list[k], list[k + 1..])
  }

  ghost predicate Good(list: seq<Stmt>) {
    GoodBefore(list, |list|)
  }

  /** The Go switch ends like the C switch, whatever label it is entered by. */
  ghost predicate Preserved(list: seq<Stmt>) {
    forall l: Label, s: State, w: World :: FatalNeverReturns(w) && !l.Named? ==>
      SwitchGo(Rewritten(list), l, s, w) == SwitchC(list, l, s, w)
  }

  // ----- running lists -----

  lemma {:induction false} Cut<T>(s: seq<T>, i: nat, y: T)
    requires i < |s|
    ensures s[..i] + [s[i]] == s[..i + 1] && [s[i]] + s[i + 1..] == s[i..]
    ensures s[..i + 1] + s[i + 1..] == s && s[i := y] == s[..i] + [y] + s[i + 1..]
  {
  }

  lemma {:induction false} RunCAppend(a: seq<Stmt>, b: seq<Stmt>, g: Status, l: Label, w: World)
    ensures RunC(a + b, g, l, w) == RunC(b, RunC(a, g, l, w), l, w)
  {
    if b == [] {
      assert a + b == a;
    } else {
      RunCAppend(a, b[..|b| - 1], g, l, w);
      assert (a + b)[..|a + b| - 1] == a + b[..|b| - 1];
    }
  }

  lemma {:induction false} RunGoAppend(a: seq<Stmt>, b: seq<Stmt>, g: Status, l: Label, w: World)
    ensures RunGo(a + b, g, l, w) == RunGo(b, RunGo(a, g, l, w), l, w)
  {
    if b == [] {
      assert a + b == a;
    } else {
      var init, last := b[..|b| - 1], b[|b| - 1];
      RunGoAppend(a, init, g, l, w);
      assert a + b == (a + init) + [last] && b == init + [last];
      RunGoPush(a + init, last, g, l, w);
      RunGoPush(init, last, RunGo(a, g, l, w), l, w);
    }
  }

  lemma {:induction false} RunGoPush(a: seq<Stmt>, x: Stmt, g: Status, l: Label, w: World)
    ensures RunGo(a + [x], g, l, w) == StepGo(RunGo(a, g, l, w), x, l, w)
  {
    assert (a + [x])[..|a|] == a;
  }

  lemma {:induction false} RunCPush(a: seq<Stmt>, x: Stmt, g: Status, l: Label, w: World)
    ensures RunC(a + [x], g, l, w) == StepC(RunC(a, g, l, w), x, l, w)
  {
    assert (a + [x])[..|a|] == a;
  }

  lemma {:induction false} BuildPush(list: seq<Stmt>, x: Stmt)
    ensures Build(list + [x]) == Push(Build(list), x)
  {
    assert (list + [x])[..|list|] == list;
  }

  // ----- labels -----

  lemma {:induction false} KindsOfLabels(labels: seq<Label>, l: Label)
    ensures l in Cases(labels) <==> l in labels && l.Case?
    ensures l in Names(labels) <==> l in labels && l.Named?
  {
    if labels != [] {
      KindsOfLabels(labels[..|labels| - 1], l);
      assert labels == labels[..|labels| - 1] + [labels[|labels| - 1]];
    }
  }

  /** Relabelling loses no label and makes none up. */
  lemma {:induction false} SameLabels(labels: seq<Label>, l: Label)
    ensures l in Relabelled(labels) <==> l in labels
  {
    KindsOfLabels(labels, l);
    if labels != Relabelled(labels) {
      assert Relabelled(labels) == Cases(labels) + (if Default in labels then [Default] else []) + Names(labels);
    }
  }

  lemma {:induction false} StillCase(labels: seq<Label>)
    ensures IsCase(Relabelled(labels)) == IsCase(labels)
    ensures !IsCase(labels) ==> Relabelled(labels) == labels
  {
    if Cases(labels) != [] {
      KindsOfLabels(labels, Cases(labels)[0]);
    }
    forall l: Label ensures l in Relabelled(labels) <==> l in labels {
      SameLabels(labels, l);
    }
  }

  lemma {:induction false} AllNamed(labels: seq<Label>)
    ensures forall k :: 0 <= k < |Names(labels)| ==> Names(labels)[k].Named?
  {
    forall k | 0 <= k < |Names(labels)| ensures Names(labels)[k].Named? {
      KindsOfLabels(labels, Names(labels)[k]);
    }
  }

  /** No name stands before a case or default, where Go would not have it. */
  lemma {:induction false} NamesBehind(labels: seq<Label>)
    ensures var r := Relabelled(labels);
            IsCase(labels) ==> forall i, j :: 0 <= i < j < |r| && r[i].Named? ==> r[j].Named?
  {
    var r := Relabelled(labels);
    var cases := Cases(labels) + if Default in labels then [Default] else [];
    AllNamed(labels);
    if IsCase(labels) {
      var l :| l in labels && !l.Named?;
      KindsOfLabels(labels, l);
      assert cases != [];
      if Names(labels) != [] {
        assert r == cases + Names(labels);
        forall i | 0 <= i < |cases| ensures !r[i].Named? {
          if i < |Cases(labels)| {
            KindsOfLabels(labels, Cases(labels)[i]);
          }
        }
        forall j | |cases| <= j < |r| ensures r[j].Named? {
          assert r[j] == Names(labels)[j - |cases|];
        }
      } else {
        forall i | 0 <= i < |r| ensures !r[i].Named? {
          KindsOfLabels(labels, r[i]);
        }
      }
    }
  }

  /** All labels lead to the statement when there is a name among them, because default
      then comes last, or when default comes last anyway. */
  lemma {:induction false} WhenLabelsGood(labels: seq<Label>)
    requires labels != []
    ensures LabelsGood(labels) <==>
            (exists n :: n in labels && n.Named?) || Default !in labels[..|labels| - 1]
  {
    if n :| n in labels && n.Named? {
      NamedLabelsGood(labels, n);
    } else {
      if Names(labels) != [] {
        KindsOfLabels(labels, Names(labels)[0]);
      }
      NoDefault(labels);
    }
  }

  lemma {:induction false} NamedLabelsGood(labels: seq<Label>, n: Label)
    requires n in labels && n.Named?
    ensures LabelsGood(labels)
  {
    KindsOfLabels(labels, n);
    var r, cases := Relabelled(labels), Cases(labels) + if Default in labels then [Default] else [];
    if cases != [] {
      assert r == cases + Names(labels);
    } else {
      KindsOfLabels(labels, Default);
    }
    forall b | 0 <= b < |r| - 1 && r[b] == Default ensures r[b + 1].Named? {
      AllNamed(labels);
      if b < |Cases(labels)| {
        KindsOfLabels(labels, r[b]);
      }
    }
  }

  lemma {:induction false} NoDefault(labels: seq<Label>)
    requires labels != [] && forall n :: n in labels ==> !n.Named?
    ensures NothingAfterDefault(labels, 0) <==> Default !in labels[..|labels| - 1]
  {
    var front := labels[..|labels| - 1];
    if Default in front {
      var k :| 0 <= k < |front| && front[k] == Default;
      assert labels[k] == Default && labels[k + 1] in labels;
    } else {
      forall b | 0 <= b < |labels| - 1 ensures labels[b] != Default {
        assert labels[b] == front[b];
      }
    }
  }

  // ----- the shape of a clause -----

  ghost predicate Clause(cl: seq<Stmt>) {
    && cl != [] && cl[|cl| - 1].kind != Fallthrough
    && if |cl| == 1 then IsCase(cl[0].labels) else Clause(cl[..|cl| - 1]) && !IsCase(cl[|cl| - 1].labels)
  }

  lemma {:induction false} ClauseShape(list: seq<Stmt>)
    requires Build(list).have && forall k :: 0 <= k < |list| ==> list[k].kind != Fallthrough
    ensures Clause(Build(list).clause)
  {
    var init, x := list[..|list| - 1], list[|list| - 1];
    StillCase(x.labels);
    if !IsCase(x.labels) {
      ClauseShape(init);
      var cl := Build(list).clause;
      assert cl[..|cl| - 1] == Build(init).clause;
    }
  }

  /** What a run still going tells about the statement it just passed. */
  lemma {:induction false} Passed(g: Status, x: Stmt, l: Label, w: World)
    requires x.kind != Fallthrough && FatalNeverReturns(w)
    ensures var g1 := StepGo(g, x, l, w);
            && (g1.Running? && x.kind != Empty ==> FallsThrough(x.kind))
            && (g1.Falling? && x.kind != Empty ==> x.kind == Mention("fallthrough"))
            && (g1.Falling? && x.kind == Empty ==> g.Falling? && !IsCase(x.labels))
            && (g1.Running? && x.kind == Empty && !IsCase(x.labels) && !l.Named? ==> g.Running?)
  {
  }

  /** A run still going at the end of a clause passed a last statement that falls through. */
  lemma {:induction false} RunningMeans(cl: seq<Stmt>, g: Status, l: Label, w: World)
    requires Clause(cl) && FatalNeverReturns(w) && !l.Named?
    ensures RunGo(cl, g, l, w).Running? ==> FallsThrough(LastUsed(cl).kind)
    ensures RunGo(cl, g, l, w).Falling? ==> LastUsed(cl).kind == Mention("fallthrough")
  {
    var init, x := cl[..|cl| - 1], cl[|cl| - 1];
    Passed(RunGo(init, g, l, w), x, l, w);
    if |cl| > 1 {
      RunningMeans(init, g, l, w);
    } else {
      assert init == [] && cl[0] == x;
      assert LastUsed(init) == NOTHING;
    }
    assert LastUsed(cl) == if x.kind != Empty then x else LastUsed(init);
    assert RunGo(cl, g, l, w) == StepGo(RunGo(init, g, l, w), x, l, w);
  }

  lemma {:induction false} LastUsedAppend(a: seq<Stmt>, b: seq<Stmt>)
    ensures LastUsed(a + b) == if LastUsed(b).kind != Empty then LastUsed(b) else LastUsed(a)
  {
    if b == [] {
      assert a + b == a;
    } else {
      LastUsedAppend(a, b[..|b| - 1]);
      assert (a + b)[..|a + b| - 1] == a + b[..|b| - 1];
    }
  }

  lemma {:induction false} AllEmptyMeans(list: seq<Stmt>)
    ensures AllEmpty(list) <==> LastUsed(list).kind == Empty
  {
    if list != [] {
      AllEmptyMeans(list[..|list| - 1]);
    }
  }

  // ----- ending a clause -----

  /** Without its last break a run that took it just ends at the end of the clause. */
  ghost predicate BreakGone(g: Status, g1: Status) {
    g == g1 || g == Rejected || (g.Done? && g.out == Broke && (g1 == Running(g.s) || g1 == Left(g.s)))
  }

  lemma {:induction false} EmptyAfter(g: Status, g1: Status, x: Stmt, l: Label, w: World)
    requires BreakGone(g, g1) && x.kind == Empty
    ensures BreakGone(StepGo(g, x, l, w), StepGo(g1, x, l, w))
  {
  }

  lemma {:induction false} BreakOrNot(g: Status, x: Stmt, l: Label, w: World)
    requires PlainBreak(x)
    ensures BreakGone(StepGo(g, x, l, w), StepGo(g, NOTHING, l, w))
  {
  }

  lemma {:induction false} WithoutBreakRuns(out: seq<Stmt>, g: Status, l: Label, w: World)
    ensures BreakGone(RunGo(out, g, l, w), RunGo(WithoutBreak(out), g, l, w))
  {
    if out != [] {
      var init, x := out[..|out| - 1], out[|out| - 1];
      assert out == init + [x];
      RunGoPush(init, x, g, l, w);
      if x.kind == Empty {
        WithoutBreakRuns(init, g, l, w);
        RunGoPush(WithoutBreak(init), x, g, l, w);
        EmptyAfter(RunGo(init, g, l, w), RunGo(WithoutBreak(init), g, l, w), x, l, w);
      } else if PlainBreak(x) {
        RunGoPush(init, NOTHING, g, l, w);
        BreakOrNot(RunGo(init, g, l, w), x, l, w);
      }
    }
  }

  /** What ending the clause does to a run. */
  ghost predicate Ended(g: Status, g1: Status, x: Stmt) {
    if PlainBreak(x) then BreakGone(g, g1)
    else if x.kind != Empty && FallsThrough(x.kind) then
      match g
      case Running(s) => g1 == Falling(s)
      case Falling(_) => g1 == Rejected
      case _ => g1 == g
    else g1 == g
  }

  lemma {:induction false} ClosedRuns(out: seq<Stmt>, g: Status, l: Label, w: World)
    ensures Ended(RunGo(out, g, l, w), RunGo(Closed(out), g, l, w), LastUsed(out))
  {
    WithoutBreakRuns(out, g, l, w);
    RunGoPush(out, Stmt([], Fallthrough), g, l, w);
  }

  // ----- the two runs side by side -----

  ghost predicate Alike(c: Status, g: Status, rest: seq<Stmt>) {
    match c
    case Waiting(_) => g == c
    case Running(s) => g == Running(s) || (g == Falling(s) && FallsInto(rest)) || (g == Left(s) && Idle(rest))
    case Done(o, s) => g == Done(o, s) || (o == Broke && g == Left(s))
    case _ => false
  }

  /** The same, once the clause has been ended and another is to follow. */
  ghost predicate AlikeClosed(c: Status, g: Status, rest: seq<Stmt>) {
    match c
    case Waiting(_) => g == c
    case Running(s) => g == Falling(s) || ((g == Left(s) || g == Running(s)) && Idle(rest))
    case Done(o, s) => g == Done(o, s) || (o == Broke && (g == Left(s) || g == Running(s)))
    case _ => false
  }

  lemma {:induction false} InClause(c: Status, g: Status, rest: seq<Stmt>, l: Label, w: World)
    requires rest != [] && Alike(c, g, rest) && !IsCase(rest[0].labels) && !l.Named?
    requires Usable(rest[0], rest[1..])
    ensures Alike(StepC(c, rest[0], l, w), StepGo(g, rest[0], l, w), rest[1..])
  {
  }

  /** What happens at the first statement of a clause; `good`: all its labels lead to it. */
  ghost predicate Starts(g: Status, g1: Status, x: Stmt, good: bool, l: Label, w: World) {
    match g
    case Waiting(s) =>
      if l !in x.labels then g1 == g
      else g1 == RunOneGo(x.kind, s, w) || (g1 == Left(s) && !good)
    case Falling(s) => g1 == RunOneGo(x.kind, s, w) || (g1 == Left(s) && !good)
    case Running(s) => g1 == Left(s)
    case _ => g1 == g
  }

  lemma {:induction false} ClauseStarts(g: Status, x: Stmt, l: Label, w: World)
    requires IsCase(x.labels)
    ensures Starts(g, StepGo(g, Renamed(x), l, w), x, LabelsGood(x.labels), l, w)
  {
    StillCase(x.labels);
    SameLabels(x.labels, l);
    var labels := Renamed(x).labels;
    if l in labels && LabelsGood(x.labels) {
      var j :| 0 <= j < |labels| && labels[j] == l;
      assert NothingAfterDefault(labels, j);
    }
  }

  lemma {:induction false} StartStatus(c: Status, g: Status, g1: Status, rest: seq<Stmt>, good: bool, l: Label,
                                       w: World)
    requires rest != [] && AlikeClosed(c, g, rest) && Starts(g, g1, rest[0], good, l, w)
    requires Usable(rest[0], rest[1..]) && (Idle(rest) || good)
    ensures Alike(StepC(c, rest[0], l, w), g1, rest[1..])
  {
  }

  lemma {:induction false} NextClause(c: Status, g: Status, rest: seq<Stmt>, l: Label, w: World)
    requires rest != [] && AlikeClosed(c, g, rest) && IsCase(rest[0].labels)
    requires Usable(rest[0], rest[1..]) && (Idle(rest) || LabelsGood(rest[0].labels))
    ensures Alike(StepC(c, rest[0], l, w), StepGo(g, Renamed(rest[0]), l, w), rest[1..])
  {
    ClauseStarts(g, rest[0], l, w);
    StartStatus(c, g, StepGo(g, Renamed(rest[0]), l, w), rest, LabelsGood(rest[0].labels), l, w);
  }

  /** What ending the clause gives, when the clause is good or nothing is missed. */
  lemma {:induction false} EndStatus(c: Status, g: Status, g1: Status, x: Stmt, rest: seq<Stmt>)
    requires Alike(c, g, rest) && Ended(g, g1, x)
    requires Idle(rest) || (g.Running? ==> x.kind != Empty && FallsThrough(x.kind))
    requires g.Falling? ==> x.kind == Mention("fallthrough")
    ensures AlikeClosed(c, g1, rest)
  {
  }

  lemma {:induction false} EndClause(b: Built, c: Status, s: State, rest: seq<Stmt>, l: Label, w: World)
    requires Clause(b.clause) && FatalNeverReturns(w) && !l.Named?
    requires Alike(c, RunGo(b.Out(), Waiting(s), l, w), rest)
    requires Idle(rest) || !AllEmpty(b.clause)
          || (LastUsed(b.Out()).kind != Empty && FallsThrough(LastUsed(b.Out()).kind))
    ensures AlikeClosed(c, RunGo(Closed(b.Out()), Waiting(s), l, w), rest)
  {
    RunGoAppend(b.closed, b.clause, Waiting(s), l, w);
    RunningMeans(b.clause, RunGo(b.closed, Waiting(s), l, w), l, w);
    LastUsedAppend(b.closed, b.clause);
    AllEmptyMeans(b.clause);
    ClosedRuns(b.Out(), Waiting(s), l, w);
    EndStatus(c, RunGo(b.Out(), Waiting(s), l, w), RunGo(Closed(b.Out()), Waiting(s), l, w), LastUsed(b.Out()), rest);
  }

  /** The statements so far and what they were rewritten to run alike. */
  ghost predicate InStep(list: seq<Stmt>, rest: seq<Stmt>, s: State, l: Label, w: World) {
    Alike(RunC(list, Waiting(s), l, w), RunGo(Build(list).Out(), Waiting(s), l, w), rest)
  }

  lemma {:induction false} NextPlain(list: seq<Stmt>, rest: seq<Stmt>, s: State, l: Label, w: World)
    requires rest != [] && Usable(rest[0], rest[1..]) && !IsCase(rest[0].labels) && !l.Named?
    requires InStep(list, rest, s, l, w)
    ensures InStep(list + [rest[0]], rest[1..], s, l, w)
  {
    var x, b := rest[0], Build(list);
    BuildPush(list, x);
    RunCPush(list, x, Waiting(s), l, w);
    assert Push(b, x).Out() == b.Out() + [x];
    RunGoPush(b.Out(), x, Waiting(s), l, w);
    InClause(RunC(list, Waiting(s), l, w), RunGo(b.Out(), Waiting(s), l, w), rest, l, w);
  }

  lemma {:induction false} NextCase(list: seq<Stmt>, rest: seq<Stmt>, s: State, l: Label, w: World)
    requires rest != [] && Usable(rest[0], rest[1..]) && IsCase(rest[0].labels) && !l.Named? && FatalNeverReturns(w)
    requires InStep(list, rest, s, l, w) && (Build(list).have ==> Clause(Build(list).clause))
    requires !Build(list).have ==> RunC(list, Waiting(s), l, w) == Waiting(s)
    requires Idle(rest) || (ClauseGood(Build(list)) && LabelsGood(rest[0].labels))
    ensures InStep(list + [rest[0]], rest[1..], s, l, w)
  {
    var x, b := rest[0], Build(list);
    var c := RunC(list, Waiting(s), l, w);
    var front := if b.have then Closed(b.Out()) else b.Out();
    BuildPush(list, x);
    RunCPush(list, x, Waiting(s), l, w);
    RunGoPush(front, Renamed(x), Waiting(s), l, w);
    if b.have {
      EndClause(b, c, s, rest, l, w);
    }
    NextClause(c, RunGo(front, Waiting(s), l, w), rest, l, w);
  }

  /** Before the first case no label has been found. */
  lemma {:induction false} BeforeCases(list: seq<Stmt>, s: State, l: Label, w: World)
    requires !Build(list).have && !l.Named?
    ensures RunC(list, Waiting(s), l, w) == Waiting(s)
  {
    if list != [] {
      BeforeCases(list[..|list| - 1], s, l, w);
    }
  }

  lemma {:induction false} Follow(list: seq<Stmt>, n: nat, s: State, l: Label, w: World)
    requires n <= |list| && Placed(list) && GoodBefore(list, n) && FatalNeverReturns(w) && !l.Named?
    ensures InStep(list[..n], list[n..], s, l, w)
  {
    if n > 0 {
      var init, rest := list[..n - 1], list[n - 1..];
      Follow(list, n - 1, s, l, w);
      assert list[..n] == init + [rest[0]] && rest[1..] == list[n..];
      assert Usable(list[n - 1], list[n - 1 + 1..]);
      assert IsCase(rest[0].labels) ==> GoodAt(Build(init), list[n - 1], list[n - 1 + 1..]);
      FollowOne(init, rest, s, l, w);
    }
  }

  lemma {:induction false} FollowOne(init: seq<Stmt>, rest: seq<Stmt>, s: State, l: Label, w: World)
    requires rest != [] && Usable(rest[0], rest[1..]) && !l.Named? && FatalNeverReturns(w)
    requires forall k :: 0 <= k < |init| ==> init[k].kind != Fallthrough
    requires IsCase(rest[0].labels) ==> GoodAt(Build(init), rest[0], rest[1..])
    requires InStep(init, rest, s, l, w)
    ensures InStep(init + [rest[0]], rest[1..], s, l, w)
  {
    if IsCase(rest[0].labels) {
      assert [rest[0]] + rest[1..] == rest;
      ShapeOrWaiting(init, s, l, w);
      NextCase(init, rest, s, l, w);
    } else {
      NextPlain(init, rest, s, l, w);
    }
  }

  lemma {:induction false} ShapeOrWaiting(list: seq<Stmt>, s: State, l: Label, w: World)
    requires (forall k :: 0 <= k < |list| ==> list[k].kind != Fallthrough) && !l.Named?
    ensures if Build(list).have then Clause(Build(list).clause) else RunC(list, Waiting(s), l, w) == Waiting(s)
  {
    if Build(list).have {
      ClauseShape(list);
    } else {
      BeforeCases(list, s, l, w);
    }
  }

  lemma {:induction false} SwitchAgrees(list: seq<Stmt>, s: State, l: Label, w: World)
    requires Placed(list) && Good(list) && FatalNeverReturns(w) && !l.Named?
    ensures SwitchGo(Rewritten(list), l, s, w) == SwitchC(list, l, s, w)
  {
    assert list[..|list|] == list && list[|list|..] == [];
    Follow(list, |list|, s, l, w);
    WithoutBreakRuns(Build(list).Out(), Waiting(s), l, w);
  }

  // ----- where the rewriting is wrong -----

  predicate Has(list: seq<Stmt>, l: Label) {
    list != [] && (l in list[|list| - 1].labels || Has(list[..|list| - 1], l))
  }

  /** A case or default label stands on one statement only, and default once. */
  ghost predicate Distinct(list: seq<Stmt>) {
    list != [] ==>
      var init, x := list[..|list| - 1], list[|list| - 1];
      && Distinct(init)
      && (forall l :: l in x.labels && !l.Named? ==> !Has(init, l))
      && OneDefault(x.labels)
  }

  ghost predicate OneDefault(labels: seq<Label>) {
    forall a, b :: 0 <= a < b < |labels| && labels[a] == Default ==> labels[b] != Default
  }

  lemma {:induction false} DistinctBefore(list: seq<Stmt>, k: nat)
    requires Distinct(list) && k < |list|
    ensures Distinct(list[..k + 1]) && OneDefault(list[k].labels)
    ensures forall l :: l in list[k].labels && !l.Named? ==> !Has(list[..k], l)
  {
    if k + 1 < |list| {
      DistinctBefore(list[..|list| - 1], k);
      assert list[..|list| - 1][..k + 1] == list[..k + 1] && list[..|list| - 1][..k] == list[..k];
    } else {
      assert list[..k + 1] == list;
    }
  }

  /** A world in which every statement shows: the others return and calls do not. */
  function Visible(): World {
    World((id, s) => (Returned, s), (f, id, s) => (false, s), (id, s) => s)
  }

  lemma {:induction false} StaysDone(rest: seq<Stmt>, o: Outcome, s: State, l: Label, w: World)
    ensures RunC(rest, Done(o, s), l, w) == Done(o, s)
  {
    if rest != [] {
      StaysDone(rest[..|rest| - 1], o, s, l, w);
    }
  }

  lemma {:induction false} RunCFirst(rest: seq<Stmt>, g: Status, l: Label, w: World)
    requires rest != []
    ensures RunC(rest, g, l, w) == RunC(rest[1..], StepC(g, rest[0], l, w), l, w)
  {
    assert rest == [rest[0]] + rest[1..];
    RunCAppend([rest[0]], rest[1..], g, l, w);
    RunCPush([], rest[0], g, l, w);
    assert [] + [rest[0]] == [rest[0]];
  }

  lemma {:induction false} NotIdle(rest: seq<Stmt>, g: Status, l: Label)
    requires !Idle(rest) && forall k :: 0 <= k < |rest| ==> rest[k].kind != Fallthrough
    requires g.Running? || (g.Waiting? && l in rest[0].labels)
    ensures Finish(RunC(rest, g, l, Visible())) != Ends(Normal, g.s)
  {
    var x, w := rest[0], Visible();
    RunCFirst(rest, g, l, w);
    var g1 := RunOne(x.kind, g.s, w);
    if x.kind == Empty || x.kind.Mention? {
      NotIdle(rest[1..], g1, l);
    } else {
      StaysDone(rest[1..], g1.out, g1.s, l, w);
    }
  }

  lemma {:induction false} HasNot(list: seq<Stmt>, s: State, l: Label, w: World)
    requires !Has(list, l)
    ensures RunC(list, Waiting(s), l, w) == Waiting(s) == RunGo(list, Waiting(s), l, w)
  {
    if list != [] {
      HasNot(list[..|list| - 1], s, l, w);
    }
  }

  lemma {:induction false} HasAppend(a: seq<Stmt>, b: seq<Stmt>, l: Label)
    ensures Has(a + b, l) == (Has(a, l) || Has(b, l))
  {
    if b == [] {
      assert a + b == a;
    } else {
      HasAppend(a, b[..|b| - 1], l);
      assert (a + b)[..|a + b| - 1] == a + b[..|b| - 1];
    }
  }

  lemma {:induction false} HasWithoutBreak(out: seq<Stmt>, l: Label)
    ensures Has(WithoutBreak(out), l) == Has(out, l)
  {
    if out != [] {
      var init, x := out[..|out| - 1], out[|out| - 1];
      HasWithoutBreak(init, l);
      if x.kind == Empty {
        assert (WithoutBreak(init) + [x])[..|init|] == WithoutBreak(init);
      } else if PlainBreak(x) {
        assert (init + [NOTHING])[..|init|] == init;
      }
    }
  }

  lemma {:induction false} HasClosed(out: seq<Stmt>, l: Label)
    ensures Has(Closed(out), l) == Has(out, l)
  {
    HasWithoutBreak(out, l);
    assert (out + [Stmt([], Fallthrough)])[..|out|] == out;
  }

  /** The output has the labels of the input. */
  lemma {:induction false} HasBuild(list: seq<Stmt>, l: Label)
    ensures Has(Build(list).Out(), l) == Has(list, l)
  {
    if list != [] {
      var init, x := list[..|list| - 1], list[|list| - 1];
      var b := Build(init);
      HasBuild(init, l);
      SameLabels(x.labels, l);
      HasClosed(b.Out(), l);
      var y := if IsCase(x.labels) then Renamed(x) else x;
      var front := if IsCase(x.labels) && b.have then Closed(b.Out()) else b.Out();
      assert Build(list).Out() == front + [y];
      assert (front + [y])[..|front|] == front;
    }
  }

  /** What is built before a case. */
  ghost function Front(b: Built): seq<Stmt> {
    if b.have then Closed(b.Out()) else b.Out()
  }

  ghost predicate EnteredEmpty(list: seq<Stmt>, s: State, l: Label, w: World) {
    && RunC(list, Waiting(s), l, w) == Running(s)
    && (var g := RunGo(Build(list).Out(), Waiting(s), l, w); g == Running(s) || g == Left(s))
  }

  /** A clause of empty statements, entered by a label of its first statement. */
  lemma {:induction false} EmptyClause(list: seq<Stmt>, s: State, l: Label, w: World)
    requires Distinct(list) && Build(list).have && AllEmpty(Build(list).clause)
    requires Build(list).clause != [] && l in Build(list).clause[0].labels && !l.Named?
    ensures EnteredEmpty(list, s, l, w)
  {
    var init, x := list[..|list| - 1], list[|list| - 1];
    assert list == init + [x];
    if IsCase(x.labels) {
      SameLabels(x.labels, l);
      EmptyFirst(init, x, s, l, w);
    } else {
      EmptyPlain(init, x, Build(init));
      EmptyClause(init, s, l, w);
      EmptyNext(init, x, s, l, w);
    }
  }

  lemma {:induction false} EmptyFirst(init: seq<Stmt>, x: Stmt, s: State, l: Label, w: World)
    requires IsCase(x.labels) && x.kind == Empty && l in x.labels && !Has(init, l)
    ensures EnteredEmpty(init + [x], s, l, w)
  {
    var front := Front(Build(init));
    assert RunGo(front, Waiting(s), l, w) == Waiting(s) by {
      HasBuild(init, l);
      HasClosed(Build(init).Out(), l);
      HasNot(front, s, l, w);
    }
    BuildPush(init, x);
    HasNot(init, s, l, w);
    RunCPush(init, x, Waiting(s), l, w);
    RunGoPush(front, Renamed(x), Waiting(s), l, w);
    ClauseStarts(Waiting(s), x, l, w);
  }

  lemma {:induction false} EmptyNext(init: seq<Stmt>, x: Stmt, s: State, l: Label, w: World)
    requires !IsCase(x.labels) && x.kind == Empty && EnteredEmpty(init, s, l, w)
    ensures EnteredEmpty(init + [x], s, l, w)
  {
    var out := Build(init).Out();
    assert Build(init + [x]).Out() == out + [x] by {
      BuildPush(init, x);
    }
    RunCPush(init, x, Waiting(s), l, w);
    RunGoPush(out, x, Waiting(s), l, w);
    var g := RunGo(out, Waiting(s), l, w);
    assert StepGo(g, x, l, w) == g;
  }

  lemma {:induction false} EmptyPlain(init: seq<Stmt>, x: Stmt, b: Built)
    requires b == Build(init) && !IsCase(x.labels)
    requires var cl := Push(b, x).clause; AllEmpty(cl) && cl != [] && b.have
    requires b.have ==> b.clause != []
    ensures AllEmpty(b.clause) && x.kind == Empty && b.clause[0] == Push(b, x).clause[0]
  {
    assert (b.clause + [x])[..|b.clause|] == b.clause;
  }

  lemma {:induction false} SomeClause(list: seq<Stmt>)
    ensures Build(list).have ==> Build(list).clause != [] && IsCase(Build(list).clause[0].labels)
  {
    if list != [] {
      SomeClause(list[..|list| - 1]);
      StillCase(list[|list| - 1].labels);
    }
  }

  lemma {:induction false} LeftStays(list: seq<Stmt>, x: Stmt, s: State, l: Label, w: World)
    requires RunGo(Build(list).Out(), Waiting(s), l, w) == Left(s)
    ensures RunGo(Build(list + [x]).Out(), Waiting(s), l, w) == Left(s)
  {
    var out := Build(list).Out();
    BuildPush(list, x);
    if IsCase(x.labels) {
      ClosedRuns(out, Waiting(s), l, w);
      RunGoPush(Front(Build(list)), Renamed(x), Waiting(s), l, w);
    } else {
      assert Build(list + [x]).Out() == out + [x];
      RunGoPush(out, x, Waiting(s), l, w);
    }
  }

  /** Once left, the switch stays left while statements are added. */
  lemma {:induction false} LeftForGood(list: seq<Stmt>, n: nat, s: State, l: Label, w: World)
    requires n <= |list| && RunGo(Build(list[..n]).Out(), Waiting(s), l, w) == Left(s)
    ensures RunGo(Build(list).Out(), Waiting(s), l, w) == Left(s)
    decreases |list| - n
  {
    if n == |list| {
      assert list[..n] == list;
    } else {
      assert list[..n + 1] == list[..n] + [list[n]];
      LeftStays(list[..n], list[n], s, l, w);
      LeftForGood(list, n + 1, s, l, w);
    }
  }

  /** Go has left before the statement list[k], which C goes on to. */
  ghost predicate Missed(list: seq<Stmt>, k: nat, l: Label)
    requires k < |list|
  {
    && RunGo(Build(list[..k + 1]).Out(), Waiting([]), l, Visible()) == Left([])
    && (var c := RunC(list[..k], Waiting([]), l, Visible());
        c == Running([]) || (c == Waiting([]) && l in list[k].labels))
  }

  lemma {:induction false} MissedMatters(list: seq<Stmt>, k: nat, l: Label)
    requires Placed(list) && k < |list| && Missed(list, k, l) && !Idle(list[k..])
    ensures SwitchGo(Rewritten(list), l, [], Visible()) != SwitchC(list, l, [], Visible())
  {
    var w := Visible();
    assert SwitchGo(Rewritten(list), l, [], w) == Ends(Normal, []) by {
      LeftForGood(list, k + 1, [], l, w);
      WithoutBreakRuns(Build(list).Out(), Waiting([]), l, w);
    }
    FallsFrom(list, k, l);
  }

  lemma {:induction false} FallsFrom(list: seq<Stmt>, k: nat, l: Label)
    requires Placed(list) && k < |list| && !Idle(list[k..])
    requires var c := RunC(list[..k], Waiting([]), l, Visible());
             c == Running([]) || (c == Waiting([]) && l in list[k].labels)
    ensures SwitchC(list, l, [], Visible()) != Ends(Normal, [])
  {
    var g := RunC(list[..k], Waiting([]), l, Visible());
    assert RunC(list, Waiting([]), l, Visible()) == RunC(list[k..], g, l, Visible()) by {
      assert list == list[..k] + list[k..];
      RunCAppend(list[..k], list[k..], Waiting([]), l, Visible());
    }
    NotIdle(list[k..], g, l);
  }

  lemma {:induction false} CaseRuns(list: seq<Stmt>, k: nat, l: Label, w: World)
    requires k < |list| && IsCase(list[k].labels)
    ensures RunGo(Build(list[..k + 1]).Out(), Waiting([]), l, w) ==
            StepGo(RunGo(Front(Build(list[..k])), Waiting([]), l, w), Renamed(list[k]), l, w)
  {
    BuildPush(list[..k], list[k]);
    assert list[..k + 1] == list[..k] + [list[k]];
    RunGoPush(Front(Build(list[..k])), Renamed(list[k]), Waiting([]), l, w);
  }

  /** A clause of empty statements that should fall into the next and does not. */
  lemma {:induction false} BadClause(list: seq<Stmt>, k: nat) returns (l: Label)
    requires Distinct(list) && k < |list| && IsCase(list[k].labels) && !ClauseGood(Build(list[..k]))
    ensures !l.Named? && Missed(list, k, l)
  {
    var init, x, w := list[..k], list[k], Visible();
    var b := Build(init);
    SomeClause(init);
    l :| l in b.clause[0].labels && !l.Named?;
    if k > 0 {
      DistinctBefore(list, k - 1);
    }
    EmptyClause(init, [], l, w);
    ClosedRuns(b.Out(), Waiting([]), l, w);
    CaseRuns(list, k, l, w);
    ClauseStarts(RunGo(Closed(b.Out()), Waiting([]), l, w), x, l, w);
  }

  /** A default label with a case after it on the same statement. */
  lemma {:induction false} BadLabels(list: seq<Stmt>, k: nat)
    requires Distinct(list) && k < |list| && IsCase(list[k].labels) && !LabelsGood(list[k].labels)
    ensures Missed(list, k, Default)
  {
    BadDefault(list, k);
    LostAt(list, k);
  }

  lemma {:induction false} BadDefault(list: seq<Stmt>, k: nat)
    requires Distinct(list) && k < |list| && !LabelsGood(list[k].labels)
    ensures Default in list[k].labels && !Has(list[..k], Default)
    ensures Renamed(list[k]) == list[k] && !Reaches(list[k].labels, Default)
  {
    DistinctBefore(list, k);
    DefaultLost(list[k].labels);
  }

  lemma {:induction false} LostAt(list: seq<Stmt>, k: nat)
    requires k < |list| && Default in list[k].labels && !Has(list[..k], Default)
    requires Renamed(list[k]) == list[k] && !Reaches(list[k].labels, Default)
    ensures Missed(list, k, Default)
  {
    var init, w := list[..k], Visible();
    HasBuild(init, Default);
    HasClosed(Build(init).Out(), Default);
    HasNot(Front(Build(init)), [], Default, w);
    HasNot(init, [], Default, w);
    CaseRuns(list, k, Default, w);
  }

  lemma {:induction false} DefaultLost(labels: seq<Label>)
    requires !LabelsGood(labels)
    requires OneDefault(labels)
    ensures Relabelled(labels) == labels && Default in labels && !Reaches(labels, Default)
  {
    assert forall n :: n in labels ==> !n.Named? by {
      if n :| n in labels && n.Named? {
        NamedLabelsGood(labels, n);
      }
    }
    if Names(labels) != [] {
      KindsOfLabels(labels, Names(labels)[0]);
    }
    DefaultOnce(labels);
  }

  lemma {:induction false} DefaultOnce(labels: seq<Label>)
    requires !NothingAfterDefault(labels, 0)
    requires OneDefault(labels)
    ensures Default in labels && !Reaches(labels, Default)
  {
    var b :| 0 <= b < |labels| - 1 && labels[b] == Default && !labels[b + 1].Named?;
    forall j | 0 <= j < |labels| && labels[j] == Default ensures !NothingAfterDefault(labels, j) {
      assert j == b;
    }
  }

  lemma {:induction false} BadCase(list: seq<Stmt>) returns (k: nat)
    requires !Good(list)
    ensures k < |list| && IsCase(list[k].labels) && !Idle(list[k..])
    ensures !ClauseGood(Build(list[..k])) || !LabelsGood(list[k].labels)
  {
    k :| 0 <= k < |list| && !GoodAt(Build(list[..k]), list[k], list[k + 1..]);
    Cut(list, k, NOTHING);
  }

  lemma {:induction false} BadSwitch(list: seq<Stmt>) returns (l: Label)
    requires Placed(list) && Distinct(list) && !Good(list)
    ensures !l.Named?
    ensures SwitchGo(Rewritten(list), l, [], Visible()) != SwitchC(list, l, [], Visible())
  {
    var k := BadCase(list);
    if LabelsGood(list[k].labels) {
      l := BadClause(list, k);
    } else {
      l := Default;
      BadLabels(list, k);
    }
    MissedMatters(list, k, l);
  }

  /** Main result: the Go switch ends like the C switch from every label, whatever the
      statements do, exactly when at each case a clause of empty statements before it comes
      after one that falls through and default is not followed by a case on the same
      statement, unless what is then missed does nothing. */
  lemma {:induction false} SwitchMeans(list: seq<Stmt>)
    requires Placed(list) && Distinct(list)
    ensures Preserved(list) <==> Good(list)
  {
    if Good(list) {
      forall l: Label, s: State, w: World | FatalNeverReturns(w) && !l.Named?
        ensures SwitchGo(Rewritten(list), l, s, w) == SwitchC(list, l, s, w)
      {
        SwitchAgrees(list, s, l, w);
      }
    } else {
      var l := BadSwitch(list);
      assert FatalNeverReturns(Visible());
    }
  }

  /** Enough for it: no case is on an empty statement, and default is the last of its labels. */
  lemma {:induction false} NoEmptyCase(list: seq<Stmt>)
    requires Placed(list)
    requires forall i :: 0 <= i < |list| && IsCase(list[i].labels) ==> list[i].kind != Empty
    requires forall i :: 0 <= i < |list| && IsCase(list[i].labels) ==>
        Default !in list[i].labels[..|list[i].labels| - 1]
    ensures Good(list)
  {
    forall k | 0 <= k < |list| ensures GoodAt(Build(list[..k]), list[k], list[k + 1..]) {
      if IsCase(list[k].labels) {
        WhenLabelsGood(list[k].labels);
        CaseNotEmpty(list[..k]);
      }
    }
  }

  lemma {:induction false} CaseNotEmpty(list: seq<Stmt>)
    requires forall i :: 0 <= i < |list| && IsCase(list[i].labels) ==> list[i].kind != Empty
    ensures Build(list).have ==> !AllEmpty(Build(list).clause)
  {
    if list != [] && Build(list).have {
      var init, x := list[..|list| - 1], list[|list| - 1];
      CaseNotEmpty(init);
      SomeClause(init);
      var cl := Build(init).clause;
      assert !IsCase(x.labels) ==> Build(list).clause == cl + [x] && (cl + [x])[..|cl|] == cl;
    }
  }

  /** case 1: return; case 2: ; case 3: f() -- the second clause, which falls into the third
      in C, gets no fallthrough: looking back from the third, the rewriter finds the return. */
  lemma {:induction false} EmptyCaseLost(a: Stmt, b: Stmt, c: Stmt)
    requires a == Stmt([Case(1)], Return(0)) && b == Stmt([Case(2)], Empty) && c == Stmt([Case(3)], Call("f", 1))
    ensures !Good([a, b, c]) && !Preserved([a, b, c])
  {
    ThreeCases(a, b, c, 1, 2, 3);
    BuildTwo(a, b);
    assert [a, b, c][..2] == [a, b] && [a, b, c][2 + 1..] == [];
    assert !GoodAt(Build([a, b]), c, []);
    assert !GoodAt(Build([a, b, c][..2]), [a, b, c][2], [a, b, c][2 + 1..]);
    SwitchMeans([a, b, c]);
  }

  lemma {:induction false} ThreeCases(a: Stmt, b: Stmt, c: Stmt, i: int, j: int, k: int)
    requires a.labels == [Case(i)] && b.labels == [Case(j)] && c.labels == [Case(k)] && i != j && i != k && j != k
    requires !IsFall(a.kind) && !IsFall(b.kind) && !IsFall(c.kind)
    ensures IsCase(a.labels) && IsCase(b.labels) && IsCase(c.labels)
    ensures Placed([a, b, c]) && Distinct([a, b, c])
  {
    assert Case(i) in a.labels && Case(j) in b.labels && Case(k) in c.labels;
    OneMore([], a, i);
    OneMore([a], b, j);
    OneMore([a, b], c, k);
    assert [] + [a] == [a] && [a] + [b] == [a, b] && [a, b] + [c] == [a, b, c];
  }

  lemma {:induction false} OneMore(list: seq<Stmt>, x: Stmt, v: int)
    requires Distinct(list) && x.labels == [Case(v)] && !Has(list, Case(v))
    ensures Distinct(list + [x])
    ensures forall u :: u != v ==> Has(list + [x], Case(u)) == Has(list, Case(u))
  {
    assert (list + [x])[..|list|] == list;
    assert forall l :: l in x.labels ==> l == Case(v);
  }

  lemma {:induction false} BuildFirst(a: Stmt)
    requires IsCase(a.labels)
    ensures Build([a]) == Built([], [Renamed(a)], true)
  {
    BuildPush([], a);
    assert [] + [a] == [a];
  }

  lemma {:induction false} BuildSecond(a: Stmt, b: Stmt)
    requires IsCase(a.labels) && IsCase(b.labels) && a.kind.Return?
    ensures Build([a, b]) == Built([Renamed(a)], [Renamed(b)], true)
  {
    var x := Renamed(a);
    BuildFirst(a);
    BuildPush([a], b);
    assert [a] + [b] == [a, b];
    LastOf([], x);
    assert [] + [x] == [x];
  }

  lemma {:induction false} BuildTwo(a: Stmt, b: Stmt)
    requires IsCase(a.labels) && IsCase(b.labels) && a.kind.Return? && b.kind == Empty
    ensures var bt := Build([a, b]);
            bt.have && AllEmpty(bt.clause) && LastUsed(bt.Out()) == Renamed(a)
  {
    var x, y := Renamed(a), Renamed(b);
    BuildSecond(a, b);
    LastOf([x], y);
    LastOf([], y);
    assert [y][..0] == [];
    LastOf([], x);
    assert [] + [x] == [x];
  }

  // ----- blocks without braces -----

  /** Running the body before inlining: a block without braces runs its statements. */
  function RunNodes(nodes: seq<Node>, g: Status, l: Label, w: World): Status {
    if nodes == [] then g
    else
      var g1 := RunNodes(nodes[..|nodes| - 1], g, l, w);
      match nodes[|nodes| - 1]
      case Single(st) => StepC(g1, st, l, w)
      case NoBrace(labels, list) =>
        RunC(list, if g1.Waiting? && l in labels then Running(g1.s) else g1, l, w)
  }

  lemma {:induction false} InlinedRuns(nodes: seq<Node>, g: Status, l: Label, w: World)
    ensures RunC(Inlined(nodes), g, l, w) == RunNodes(nodes, g, l, w)
  {
    if nodes != [] {
      var n := |nodes| - 1;
      var g1 := RunNodes(nodes[..n], g, l, w);
      InlinedRuns(nodes[..n], g, l, w);
      RunCAppend(Inlined(nodes[..n]), InlinedOne(nodes[n]), g, l, w);
      match nodes[n] {
        case Single(st) =>
          RunCPush([], st, g1, l, w);
          assert [] + [st] == [st];
        case NoBrace(labels, list) => EmptyThenList(labels, list, g1, l, w);
      }
    }
  }

  lemma {:induction false} EmptyThenList(labels: seq<Label>, list: seq<Stmt>, g: Status, l: Label, w: World)
    ensures RunC([Stmt(labels, Empty)] + list, g, l, w) ==
            RunC(list, if g.Waiting? && l in labels then Running(g.s) else g, l, w)
  {
    var e := Stmt(labels, Empty);
    RunCAppend([e], list, g, l, w);
    RunCPush([], e, g, l, w);
    assert [] + [e] == [e];
  }

  // ----- the program -----

  /** A switch statement, rewritten in place. */
  class SwitchNode {
    var nodes: seq<Node>
    var body: seq<Stmt>

    constructor (list: seq<Node>)
      ensures nodes == list && body == []
    {
      nodes, body := list, [];
    }

    method InlineBlockNoBrace()
      modifies this
      ensures body == Inlined(old(nodes)) && nodes == old(nodes)
    {
      var list := [];
      var i := 0;
      while i < |nodes|
        invariant 0 <= i <= |nodes| && nodes == old(nodes)
        invariant list == Inlined(nodes[..i])
      {
        assert nodes[..i + 1][..i] == nodes[..i];
        match nodes[i] {
          case Single(st) =>
            list := list + [st];
          case NoBrace(labels, inner) =>
            list := list + ([Stmt(labels, Empty)] + inner);
        }
        i := i + 1;
      }
      assert nodes[..i] == nodes;
      body := list;
    }

    method Rewrite()
      modifies this
      ensures body == Rewritten(Inlined(old(nodes)))
    {
      InlineBlockNoBrace();
      var out := BuildClauses(body);
      body := DropBreak(out);
    }
  }

  method BuildClauses(list: seq<Stmt>) returns (out: seq<Stmt>)
    ensures out == Build(list).Out()
  {
    out := [];
    var haveCase := false;
    var n := 0;
    while n < |list|
      invariant 0 <= n <= |list|
      invariant Build(list[..n]).Out() == out && Build(list[..n]).have == haveCase
    {
      assert list[..n + 1] == list[..n] + [list[n]];
      out, haveCase := PushStmt(list[..n], out, haveCase, list[n]);
      n := n + 1;
    }
    assert list[..n] == list;
  }

  /** One more statement: a case ends the clause before it. */
  method PushStmt(ghost init: seq<Stmt>, out: seq<Stmt>, haveCase: bool, stmt: Stmt) returns (r: seq<Stmt>, have: bool)
    requires Build(init).Out() == out && Build(init).have == haveCase
    ensures r == Build(init + [stmt]).Out() && have == Build(init + [stmt]).have
  {
    BuildPush(init, stmt);
    var labels, isCase := Relabel(stmt.labels);
    r, have := out, haveCase;
    if isCase {
      if haveCase {
        r := CloseClause(out);
      }
      have := true;
    }
    assert !isCase ==> labels == stmt.labels by {
      StillCase(stmt.labels);
    }
    r := r + [Stmt(labels, stmt.kind)];
  }

  /** Removes the break at the end of a clause, or adds the fallthrough it needs. */
  method CloseClause(out: seq<Stmt>) returns (r: seq<Stmt>)
    ensures r == Closed(out)
  {
    r := out;
    var i := FindUsed(out);
    if i >= 0 && out[i].kind == Break && |out[i].labels| == 0 {
      r := out[i := out[i].(kind := Empty)];
    } else if i >= 0 && FallsThrough(out[i].kind) {
      r := out + [Stmt([], Fallthrough)];
    }
  }

  /** Removes the break at the end of the last clause. */
  method DropBreak(out: seq<Stmt>) returns (r: seq<Stmt>)
    ensures r == WithoutBreak(out)
  {
    r := out;
    var i := FindUsed(out);
    if i >= 0 && out[i].kind == Break && |out[i].labels| == 0 {
      r := out[i := out[i].(kind := Empty)];
    }
  }

  /** The index of the last statement that is not empty, or -1. */
  method FindUsed(out: seq<Stmt>) returns (i: int)
    ensures -1 <= i < |out|
    ensures LastUsed(out) == if i >= 0 then out[i] else NOTHING
    ensures i >= 0 ==> out[i].kind != Empty
    ensures WithoutBreak(out) == if i >= 0 && PlainBreak(out[i]) then out[i := NOTHING] else out
  {
    i := |out| - 1;
    assert out[..|out|] == out && out[|out|..] == [];
    while i >= 0 && out[i].kind == Empty
      invariant -1 <= i < |out|
      invariant Same(out, i + 1)
    {
      OneBack(out, i);
      i := i - 1;
    }
    FoundUsed(out, i);
  }

  /** Nothing from statement n on matters to what is last used. */
  ghost predicate Same(out: seq<Stmt>, n: nat)
    requires n <= |out|
  {
    LastUsed(out[..n]) == LastUsed(out) && WithoutBreak(out[..n]) + out[n..] == WithoutBreak(out)
  }

  lemma {:induction false} OneBack(out: seq<Stmt>, i: nat)
    requires i < |out| && out[i].kind == Empty && Same(out, i + 1)
    ensures Same(out, i)
  {
    LastOf(out[..i], out[i]);
    Cut(out, i, NOTHING);
    assert WithoutBreak(out[..i]) + [out[i]] + out[i + 1..] == WithoutBreak(out[..i]) + ([out[i]] + out[i + 1..]);
  }

  lemma {:induction false} FoundUsed(out: seq<Stmt>, i: int)
    requires -1 <= i < |out| && Same(out, i + 1) && (i >= 0 ==> out[i].kind != Empty)
    ensures LastUsed(out) == if i >= 0 then out[i] else NOTHING
    ensures WithoutBreak(out) == if i >= 0 && PlainBreak(out[i]) then out[i := NOTHING] else out
  {
    if i >= 0 {
      LastOf(out[..i], out[i]);
      Cut(out, i, NOTHING);
    }
  }

  /** What is done at the end of a clause: of the last statement that is not empty, a break
      without labels goes, and one that runs on gets a fallthrough behind it. */
  lemma {:induction false} ClosedIs(out: seq<Stmt>, i: nat)
    requires i < |out| && out[i].kind != Empty && forall k :: i < k < |out| ==> out[k].kind == Empty
    ensures WithoutBreak(out) == if PlainBreak(out[i]) then out[i := NOTHING] else out
    ensures Closed(out) ==
            if PlainBreak(out[i]) then out[i := NOTHING]
            else if FallsThrough(out[i].kind) then out + [Stmt([], Fallthrough)]
            else out
  {
    var n := |out|;
    assert out[..n] == out && WithoutBreak(out) + [] == WithoutBreak(out);
    while n > i + 1
      invariant i < n <= |out| && Same(out, n)
    {
      OneBack(out, n - 1);
      n := n - 1;
    }
    FoundUsed(out, i);
  }

  lemma {:induction false} LastOf(init: seq<Stmt>, x: Stmt)
    ensures LastUsed(init + [x]) == if x.kind == Empty then LastUsed(init) else x
    ensures WithoutBreak(init + [x]) ==
            if x.kind == Empty then WithoutBreak(init) + [x] else if PlainBreak(x) then init + [NOTHING] else init + [x]
  {
    assert (init + [x])[..|init|] == init;
  }

  lemma {:induction false} WhenCases(labels: seq<Label>)
    ensures IsCase(labels) <==> Cases(labels) != [] || Default in labels
  {
    if Cases(labels) != [] {
      KindsOfLabels(labels, Cases(labels)[0]);
    }
    if l :| l in labels && !l.Named? {
      KindsOfLabels(labels, l);
    }
  }

  /** Puts cases before default before names, if there are both cases and names. */
  method Relabel(labels: seq<Label>) returns (r: seq<Label>, isCase: bool)
    ensures r == Relabelled(labels) && isCase == IsCase(labels)
  {
    var names, cases := [], [];
    var def := false;
    for k := 0 to |labels|
      invariant cases == Cases(labels[..k]) && names == Names(labels[..k]) && def == (Default in labels[..k])
    {
      assert labels[..k + 1][..k] == labels[..k];
      assert labels[..k + 1] == labels[..k] + [labels[k]];
      match labels[k] {
        case Named(_) => names := names + [labels[k]];
        case Default => def := true;
        case Case(_) => cases := cases + [labels[k]];
      }
    }
    assert labels[..|labels|] == labels;
    if def {
      cases := cases + [Default];
    }
    isCase := |cases| > 0;
    WhenCases(labels);
    r := if |cases| > 0 && |names| > 0 then cases + names else labels;
  }
}
