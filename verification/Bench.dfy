/** The benchmark lab: the queue of jobs of a machine, and running it with a bounded number
    of jobs at a time. */
module Bench {
  import opened Common

  // ----- the queue -----

  /** A run: phase 0 is the test of a commit on a host (the id), later phases benchmark it. */
  datatype Job = Job(phase: nat, id: nat)

  /** The pairs of a commit and a host, in the order of their ids. */
  function HostRow(c: nat, hosts: nat): (r: seq<(nat, nat)>)
    ensures |r| == hosts && forall k :: 0 <= k < hosts ==> r[k] == (c, k)
  {
    if hosts == 0 then [] else HostRow(c, hosts - 1) + [(c, hosts - 1)]
  }

  function Pairs(commits: nat, hosts: nat): seq<(nat, nat)> {
    if commits == 0 then [] else Pairs(commits - 1, hosts) + HostRow(commits - 1, hosts)
  }

  lemma {:induction false} PairAt(c: nat, commits: nat, hosts: nat, k: nat)
    requires c < commits && k < hosts
    ensures |Pairs(c, hosts)| + k < |Pairs(commits, hosts)|
    ensures Pairs(commits, hosts)[|Pairs(c, hosts)| + k] == (c, k)
  {
    if c + 1 < commits {
      PairAt(c, commits - 1, hosts, k);
    }
  }

  /** What is to be run: commits and hosts, the machine of each host, the number of
      benchmark phases, and the runs whose output is cached. */
  datatype Lab = Lab(commits: nat, hosts: nat, machine: nat -> nat, reps: nat, cached: Job -> bool) {
    function Ids(): nat { |Pairs(commits, hosts)| }

    function MachineOf(id: nat): nat
      requires id < Ids()
    {
      machine(Pairs(commits, hosts)[id].1)
    }
  }

  predicate Runs(l: Lab, m: nat, j: Job) {
    j.id < l.Ids() && l.MachineOf(j.id) == m && !l.cached(j)
  }

  /** The jobs of a phase with id below n that machine m has to run. */
  function Row(l: Lab, m: nat, phase: nat, n: nat): seq<Job> {
    if n == 0 then []
    else Row(l, m, phase, n - 1) + if Runs(l, m, Job(phase, n - 1)) then [Job(phase, n - 1)] else []
  }

  /** The jobs of the phases below p. */
  function Rows(l: Lab, m: nat, p: nat): seq<Job> {
    if p == 0 then [] else Rows(l, m, p - 1) + Row(l, m, p - 1, l.Ids())
  }

  function Queue(l: Lab, m: nat): seq<Job> {
    Rows(l, m, 1 + l.reps)
  }

  function NoJobs(m: nat): seq<Job> { [] }

  type Queues = map<nat, seq<Job>>

  ghost predicate Filled(l: Lab, machines: nat, queues: Queues, phase: nat, id: nat) {
    forall m :: 0 <= m < machines ==> m in queues && queues[m] == Rows(l, m, phase) + Row(l, m, phase, id)
  }

  /** The id is that of commit c on host h, and h is one of machine m. */
  predicate IdFor(l: Lab, m: nat, id: nat, c: nat, h: nat) {
    c < l.commits && h < l.hosts && id == c * l.hosts + h && l.machine(h) == m
  }

  ghost predicate OnMachine(l: Lab, m: nat, id: nat) {
    exists c: nat, h: nat :: IdFor(l, m, id, c, h)
  }

  predicate Earlier(j: Job, k: Job) {
    j.phase < k.phase || (j.phase == k.phase && j.id < k.id)
  }

  /** What a queue of machine m has to hold: the test and all benchmarks of every commit on
      every host of the machine, unless cached, each once, in order of phase and id. */
  ghost predicate Holds(l: Lab, m: nat, q: seq<Job>) {
    && (forall j :: j in q <==> j.phase <= l.reps && OnMachine(l, m, j.id) && !l.cached(j))
    && (forall i, k :: 0 <= i < k < |q| ==> Earlier(q[i], q[k]))
  }

  /** Builds the queues of all machines. */
  method CreateJobs(l: Lab, machines: nat) returns (queues: Queues)
    requires forall h :: l.machine(h) < machines
    ensures forall m :: 0 <= m < machines ==> m in queues && Holds(l, m, queues[m]) && queues[m] == Queue(l, m)
  {
    queues := map m | 0 <= m < machines :: NoJobs(m);
    for phase := 0 to 1 + l.reps
      invariant Filled(l, machines, queues, phase, 0)
    {
      queues := AddPhase(l, machines, queues, phase);
      NextPhase(l, machines, queues, phase);
    }
    forall m | 0 <= m < machines ensures m in queues && Holds(l, m, queues[m]) && queues[m] == Queue(l, m) {
      assert m in queues;
      QueueHolds(l, m);
    }
  }

  method AddPhase(l: Lab, machines: nat, queues: Queues, phase: nat) returns (r: Queues)
    requires (forall h :: l.machine(h) < machines) && Filled(l, machines, queues, phase, 0)
    ensures Filled(l, machines, r, phase, l.Ids())
  {
    r := queues;
    var id := 0;
    for commit := 0 to l.commits
      invariant id == |Pairs(commit, l.hosts)| && Filled(l, machines, r, phase, id)
    {
      r, id := AddCommit(l, machines, r, phase, commit, id);
    }
  }

  /** The runs of one commit on all hosts. */
  method AddCommit(l: Lab, machines: nat, queues: Queues, phase: nat, commit: nat, first: nat)
    returns (r: Queues, id: nat)
    requires (forall h :: l.machine(h) < machines) && Filled(l, machines, queues, phase, first)
    requires commit < l.commits && first == |Pairs(commit, l.hosts)|
    ensures id == |Pairs(commit + 1, l.hosts)| && Filled(l, machines, r, phase, id)
  {
    r, id := queues, first;
    for host := 0 to l.hosts
      invariant id == |Pairs(commit, l.hosts)| + host && Filled(l, machines, r, phase, id)
    {
      HostOf(l, commit, host);
      r := Enqueue(l, machines, r, l.machine(host), Job(phase, id));
      id := id + 1;
    }
  }

  lemma {:induction false} HostOf(l: Lab, commit: nat, host: nat)
    requires commit < l.commits && host < l.hosts
    ensures var id := |Pairs(commit, l.hosts)| + host; id < l.Ids() && l.MachineOf(id) == l.machine(host)
  {
    PairAt(commit, l.commits, l.hosts, host);
  }

  lemma {:induction false} NextPhase(l: Lab, machines: nat, queues: Queues, phase: nat)
    requires Filled(l, machines, queues, phase, l.Ids())
    ensures Filled(l, machines, queues, phase + 1, 0)
  {
    forall m | 0 <= m < machines ensures m in queues && queues[m] == Rows(l, m, phase + 1) + Row(l, m, phase + 1, 0) {
      assert m in queues;
      assert Rows(l, m, phase + 1) + [] == Rows(l, m, phase + 1);
    }
  }

  method Enqueue(l: Lab, machines: nat, queues: Queues, m: nat, j: Job) returns (r: Queues)
    requires Filled(l, machines, queues, j.phase, j.id)
    requires j.id < l.Ids() && m == l.MachineOf(j.id) < machines
    ensures Filled(l, machines, r, j.phase, j.id + 1)
  {
    r := if l.cached(j) then queues else queues[m := queues[m] + [j]];
    forall k | 0 <= k < machines ensures k in r && r[k] == Rows(l, k, j.phase) + Row(l, k, j.phase, j.id + 1) {
      assert k in queues;
    }
  }

  lemma {:induction false} InRow(l: Lab, m: nat, phase: nat, n: nat, j: Job)
    ensures j in Row(l, m, phase, n) <==> j.phase == phase && j.id < n && Runs(l, m, j)
  {
    if n > 0 {
      InRow(l, m, phase, n - 1, j);
    }
  }

  lemma {:induction false} InRows(l: Lab, m: nat, p: nat, j: Job)
    ensures j in Rows(l, m, p) <==> j.phase < p && j.id < l.Ids() && Runs(l, m, j)
  {
    if p > 0 {
      var rows, row := Rows(l, m, p - 1), Row(l, m, p - 1, l.Ids());
      assert j in rows <==> j.phase < p - 1 && j.id < l.Ids() && Runs(l, m, j) by {
        InRows(l, m, p - 1, j);
      }
      assert j in row <==> j.phase == p - 1 && j.id < l.Ids() && Runs(l, m, j) by {
        InRow(l, m, p - 1, l.Ids(), j);
      }
      assert j in rows + row <==> j in rows || j in row;
    }
  }

  lemma {:induction false} RowOnce(l: Lab, m: nat, phase: nat, n: nat)
    ensures forall i, k :: 0 <= i < k < |Row(l, m, phase, n)| ==> Row(l, m, phase, n)[i] != Row(l, m, phase, n)[k]
  {
    if n > 0 {
      RowOnce(l, m, phase, n - 1);
      var row := Row(l, m, phase, n - 1);
      forall i | 0 <= i < |row| ensures row[i] != Job(phase, n - 1) {
        InRow(l, m, phase, n - 1, row[i]);
      }
    }
  }

  /** No job is queued twice. */
  lemma {:induction false} QueuedOnce(l: Lab, m: nat, p: nat)
    ensures forall i, k :: 0 <= i < k < |Rows(l, m, p)| ==> Rows(l, m, p)[i] != Rows(l, m, p)[k]
  {
    if p > 0 {
      QueuedOnce(l, m, p - 1);
      var rows, row := Rows(l, m, p - 1), Row(l, m, p - 1, l.Ids());
      RowOnce(l, m, p - 1, l.Ids());
      forall i, k | 0 <= i < |rows| && 0 <= k < |row| ensures rows[i] != row[k] {
        InRows(l, m, p - 1, rows[i]);
        InRow(l, m, p - 1, l.Ids(), row[k]);
      }
      forall i, k | 0 <= i < k < |rows + row| ensures (rows + row)[i] != (rows + row)[k] {
        if i >= |rows| {
          assert row[i - |rows|] != row[k - |rows|];
        }
      }
    }
  }

  lemma {:induction false} PairsCount(commits: nat, hosts: nat)
    ensures |Pairs(commits, hosts)| == commits * hosts
  {
    if commits > 0 {
      PairsCount(commits - 1, hosts);
      assert commits * hosts == (commits - 1) * hosts + hosts;
    }
  }

  /** Every id is that of a commit and a host. */
  lemma {:induction false} PairOf(commits: nat, hosts: nat, id: nat) returns (c: nat, h: nat)
    requires id < |Pairs(commits, hosts)|
    ensures c < commits && h < hosts && id == |Pairs(c, hosts)| + h && Pairs(commits, hosts)[id] == (c, h)
  {
    if id < |Pairs(commits - 1, hosts)| {
      c, h := PairOf(commits - 1, hosts, id);
    } else {
      c, h := commits - 1, id - |Pairs(commits - 1, hosts)|;
    }
  }

  lemma {:induction false} RunsOnMachine(l: Lab, m: nat, j: Job)
    ensures Runs(l, m, j) <==> OnMachine(l, m, j.id) && !l.cached(j)
  {
    if j.id < l.Ids() {
      var c, h := PairOf(l.commits, l.hosts, j.id);
      PairsCount(c, l.hosts);
      assert l.MachineOf(j.id) == m ==> IdFor(l, m, j.id, c, h);
    }
    if c: nat, h: nat :| IdFor(l, m, j.id, c, h) {
      PairsCount(c, l.hosts);
      PairAt(c, l.commits, l.hosts, h);
    }
  }

  lemma {:induction false} RowInOrder(l: Lab, m: nat, phase: nat, n: nat)
    ensures forall i, k :: 0 <= i < k < |Row(l, m, phase, n)| ==>
              Earlier(Row(l, m, phase, n)[i], Row(l, m, phase, n)[k])
  {
    if n > 0 {
      RowInOrder(l, m, phase, n - 1);
      var row := Row(l, m, phase, n - 1);
      forall i | 0 <= i < |row| ensures Earlier(row[i], Job(phase, n - 1)) {
        InRow(l, m, phase, n - 1, row[i]);
      }
    }
  }

  lemma {:induction false} RowsInOrder(l: Lab, m: nat, p: nat)
    ensures forall i, k :: 0 <= i < k < |Rows(l, m, p)| ==> Earlier(Rows(l, m, p)[i], Rows(l, m, p)[k])
  {
    if p > 0 {
      var rows, row := Rows(l, m, p - 1), Row(l, m, p - 1, l.Ids());
      RowsInOrder(l, m, p - 1);
      RowInOrder(l, m, p - 1, l.Ids());
      forall i, k | 0 <= i < |rows| && 0 <= k < |row| ensures Earlier(rows[i], row[k]) {
        InRows(l, m, p - 1, rows[i]);
        InRow(l, m, p - 1, l.Ids(), row[k]);
      }
      BothInOrder(rows, row);
    }
  }

  lemma {:induction false} BothInOrder(a: seq<Job>, b: seq<Job>)
    requires forall i, k :: 0 <= i < k < |a| ==> Earlier(a[i], a[k])
    requires forall i, k :: 0 <= i < k < |b| ==> Earlier(b[i], b[k])
    requires forall i, k :: 0 <= i < |a| && 0 <= k < |b| ==> Earlier(a[i], b[k])
    ensures forall i, k :: 0 <= i < k < |a + b| ==> Earlier((a + b)[i], (a + b)[k])
  {
    forall i, k | 0 <= i < k < |a + b| ensures Earlier((a + b)[i], (a + b)[k]) {
      if i >= |a| {
        assert Earlier(b[i - |a|], b[k - |a|]);
      }
    }
  }

  /** Main result for the queues. */
  lemma {:induction false} QueueHolds(l: Lab, m: nat)
    ensures Holds(l, m, Queue(l, m))
  {
    var q := Queue(l, m);
    forall j ensures j in q <==> j.phase <= l.reps && OnMachine(l, m, j.id) && !l.cached(j) {
      InRows(l, m, 1 + l.reps, j);
      RunsOnMachine(l, m, j);
    }
    RowsInOrder(l, m, 1 + l.reps);
  }

  /** The test that a benchmark waits for is queued before it on the same machine, unless
      its output is cached. */
  lemma {:induction false} ParentBefore(l: Lab, m: nat, p: nat, i: nat) returns (k: nat)
    requires i < |Rows(l, m, p)| && Rows(l, m, p)[i].phase > 0
    requires !l.cached(Job(0, Rows(l, m, p)[i].id))
    ensures k < i && Rows(l, m, p)[k] == Job(0, Rows(l, m, p)[i].id)
  {
    var rows, row := Rows(l, m, p - 1), Row(l, m, p - 1, l.Ids());
    if i < |rows| {
      k := ParentBefore(l, m, p - 1, i);
    } else {
      var j := row[i - |rows|];
      InRow(l, m, p - 1, l.Ids(), j);
      InRows(l, m, p - 1, Job(0, j.id));
      k :| 0 <= k < |rows| && rows[k] == Job(0, j.id);
    }
  }

  // ----- running the queue -----

  /** A job's goroutine: not started, waiting for its parent, running its command, done with
      a result, its done channel closed, handed to the main loop, reported. */
  datatype Progress =
    | Unstarted | Waiting | Running
    | Over(ok: bool) | Closed(ok: bool) | Sent(ok: bool) | Reported(ok: bool)

  /** The main loop: starting jobs, then collecting so many, then done. */
  datatype Main = Spawning | Draining(left: nat) | Completed

  datatype State = State(jobs: seq<Progress>, next: nat, active: nat, main: Main)

  /** The jobs' parents in the queue, if they are not cached, and the limit. */
  datatype Plan = Plan(parent: seq<Option<nat>>, maxJobs: nat)

  /** Every parent comes before its children; there is room for a job. */
  predicate Sane(p: Plan) {
    p.maxJobs > 0 && forall i :: 0 <= i < |p.parent| && p.parent[i].Some? ==> p.parent[i].value < i
  }

  datatype Event =
    | Spawn | TakeSlot(i: nat) | StartDraining | Drain(i: nat) | Complete
    | ParentPassed(i: nat) | ParentFailed(i: nat) | CommandEnds(i: nat, ok: bool)
    | Close(i: nat) | Send(i: nat)

  function Begin(p: Plan): State {
    State(seq(|p.parent|, _ => Unstarted), 0, 0, Spawning)
  }

  /** The job's done channel is closed. */
  predicate DoneClosed(g: Progress) {
    g.Closed? || g.Sent? || g.Reported?
  }

  /** The parent has passed: there is none, its output is cached, or it succeeded. */
  predicate Passed(p: Plan, s: State, i: nat)
    requires i < |p.parent| && |s.jobs| == |p.parent| && Sane(p)
  {
    p.parent[i].Some? ==> DoneClosed(s.jobs[p.parent[i].value]) && s.jobs[p.parent[i].value].ok
  }

  predicate Failed(p: Plan, s: State, i: nat)
    requires i < |p.parent| && |s.jobs| == |p.parent| && Sane(p)
  {
    p.parent[i].Some? && DoneClosed(s.jobs[p.parent[i].value]) && !s.jobs[p.parent[i].value].ok
  }

  predicate At(s: State, i: nat, g: Progress) {
    i < |s.jobs| && s.jobs[i] == g
  }

  predicate Enabled(p: Plan, s: State, e: Event)
    requires |s.jobs| == |p.parent| && Sane(p)
  {
    match e
    case Spawn => s.main == Spawning && s.next < |s.jobs| && s.active != p.maxJobs
    case TakeSlot(i) => s.main == Spawning && s.next < |s.jobs| && s.active == p.maxJobs && i < |s.jobs|
        && s.jobs[i].Sent?
    case StartDraining => s.main == Spawning && s.next == |s.jobs|
    case Drain(i) => s.main.Draining? && s.main.left > 0 && i < |s.jobs| && s.jobs[i].Sent?
    case Complete => s.main == Draining(0)
    case ParentPassed(i) => At(s, i, Waiting) && Passed(p, s, i)
    case ParentFailed(i) => At(s, i, Waiting) && Failed(p, s, i)
    case CommandEnds(i, _) => At(s, i, Running)
    case Close(i) => i < |s.jobs| && s.jobs[i].Over?
    case Send(i) => i < |s.jobs| && s.jobs[i].Closed?
  }

  function Moved(s: State, i: nat, g: Progress): State
    requires i < |s.jobs|
  {
    s.(jobs := s.jobs[i := g])
  }

  function Next(p: Plan, s: State, e: Event): (t: State)
    requires |s.jobs| == |p.parent| && Sane(p) && Enabled(p, s, e)
    ensures |t.jobs| == |s.jobs|
  {
    match e
    case Spawn => Moved(s, s.next, Waiting).(next := s.next + 1, active := s.active + 1)
    case TakeSlot(i) => Moved(s, i, Reported(s.jobs[i].ok)).(active := s.active - 1)
    case StartDraining => s.(main := Draining(s.active))
    case Drain(i) => Moved(s, i, Reported(s.jobs[i].ok)).(main := Draining(s.main.left - 1))
    case Complete => s.(main := Completed)
    case ParentPassed(i) => Moved(s, i, Running)
    case ParentFailed(i) => Moved(s, i, Over(false))
    case CommandEnds(i, ok) => Moved(s, i, Over(ok))
    case Close(i) => Moved(s, i, Closed(s.jobs[i].ok))
    case Send(i) => Moved(s, i, Sent(s.jobs[i].ok))
  }

  // ----- counting jobs -----

  function InFlight(g: Progress): int {
    if g.Unstarted? || g.Reported? then 0 else 1
  }

  // ----- the invariant -----

  /** A job that has run its command, or is running it, has a parent that passed. */
  ghost predicate Justified(p: Plan, s: State)
    requires |s.jobs| == |p.parent| && Sane(p)
  {
    forall i :: 0 <= i < |s.jobs| &&
                (s.jobs[i] == Running || ((s.jobs[i].Over? || DoneClosed(s.jobs[i])) && s.jobs[i].ok)) ==>
      Passed(p, s, i)
  }

  ghost predicate Inv(p: Plan, s: State) {
    && Sane(p) && |s.jobs| == |p.parent| && s.next <= |s.jobs|
    && (forall i :: 0 <= i < |s.jobs| ==> (s.jobs[i] == Unstarted <==> i >= s.next))
    && Justified(p, s)
    && (s.main == Spawning ==> Weigh(s.jobs, InFlight) == s.active <= p.maxJobs)
    && (s.main.Draining? ==> s.next == |s.jobs| && Weigh(s.jobs, InFlight) == s.main.left <= p.maxJobs)
    && (s.main == Completed ==> s.next == |s.jobs| && Weigh(s.jobs, InFlight) == 0)
  }

  lemma {:induction false} BeginInv(p: Plan)
    requires Sane(p)
    ensures Inv(p, Begin(p))
  {
    WeighNone(Begin(p).jobs, InFlight);
  }

  /** The job a step moves, and where to. */
  function Mover(p: Plan, s: State, e: Event): Option<(nat, Progress)>
    requires |s.jobs| == |p.parent| && Sane(p) && Enabled(p, s, e)
  {
    match e
    case Spawn => Some((s.next, Waiting))
    case TakeSlot(i) => Some((i, Reported(s.jobs[i].ok)))
    case Drain(i) => Some((i, Reported(s.jobs[i].ok)))
    case ParentPassed(i) => Some((i, Running))
    case ParentFailed(i) => Some((i, Over(false)))
    case CommandEnds(i, ok) => Some((i, Over(ok)))
    case Close(i) => Some((i, Closed(s.jobs[i].ok)))
    case Send(i) => Some((i, Sent(s.jobs[i].ok)))
    case _ => None
  }

  /** A done channel stays closed, and a result stays what it is. */
  lemma {:induction false} ResultsStay(p: Plan, s: State, e: Event, i: nat)
    requires Inv(p, s) && Enabled(p, s, e) && i < |s.jobs| && DoneClosed(s.jobs[i])
    ensures DoneClosed(Next(p, s, e).jobs[i]) && Next(p, s, e).jobs[i].ok == s.jobs[i].ok
  {
  }

  lemma {:induction false} StillJustified(p: Plan, s: State, e: Event)
    requires Inv(p, s) && Enabled(p, s, e)
    ensures Justified(p, Next(p, s, e))
  {
    var t := Next(p, s, e);
    forall i | 0 <= i < |t.jobs|
        && (t.jobs[i] == Running || ((t.jobs[i].Over? || DoneClosed(t.jobs[i])) && t.jobs[i].ok))
      ensures Passed(p, t, i)
    {
      assert Passed(p, s, i);
      if p.parent[i].Some? {
        ResultsStay(p, s, e, p.parent[i].value);
      }
    }
  }

  lemma {:induction false} StepKeepsInv(p: Plan, s: State, e: Event)
    requires Inv(p, s) && Enabled(p, s, e)
    ensures Inv(p, Next(p, s, e))
  {
    StillJustified(p, s, e);
    WeighNatural(s.jobs, InFlight);
    var m := Mover(p, s, e);
    if m.Some? {
      WeighMoved(s.jobs, m.value.0, m.value.1, InFlight);
      assert Next(p, s, e).jobs == s.jobs[m.value.0 := m.value.1];
    }
  }

  /** The state after a sequence of steps, if they can be taken. */
  ghost function After(p: Plan, es: seq<Event>): Option<State>
    requires Sane(p)
    ensures After(p, es).Some? ==> |After(p, es).value.jobs| == |p.parent|
  {
    if es == [] then Some(Begin(p))
    else
      var r := After(p, es[..|es| - 1]);
      if r.Some? && Enabled(p, r.value, es[|es| - 1]) then Some(Next(p, r.value, es[|es| - 1])) else None
  }

  lemma {:induction false} RunKeepsInv(p: Plan, es: seq<Event>)
    requires Sane(p) && After(p, es).Some?
    ensures Inv(p, After(p, es).value)
  {
    if es == [] {
      BeginInv(p);
    } else {
      RunKeepsInv(p, es[..|es| - 1]);
      StepKeepsInv(p, After(p, es[..|es| - 1]).value, es[|es| - 1]);
    }
  }

  /** How often a run reports a job. */
  function Reports(es: seq<Event>, i: nat): nat {
    if es == [] then 0
    else
      var e := es[|es| - 1];
      Reports(es[..|es| - 1], i) + if e == TakeSlot(i) || e == Drain(i) then 1 else 0
  }

  lemma {:induction false} ReportsOnce(p: Plan, es: seq<Event>, i: nat)
    requires Sane(p) && After(p, es).Some? && i < |p.parent|
    ensures Reports(es, i) == if After(p, es).value.jobs[i].Reported? then 1 else 0
  {
    if es != [] {
      ReportsOnce(p, es[..|es| - 1], i);
      RunKeepsInv(p, es[..|es| - 1]);
    }
  }

  /** The job has a result. */
  predicate HasResult(g: Progress) {
    g.Over? || DoneClosed(g)
  }

  /** A job passes exactly when its command ends well; a job whose parent failed fails without
      running it. */
  lemma {:induction false} ResultsAreCommands(p: Plan, es: seq<Event>, i: nat)
    requires Sane(p) && After(p, es).Some? && i < |p.parent|
    ensures var g := After(p, es).value.jobs[i];
            CommandEnds(i, true) in es <==> HasResult(g) && g.ok
  {
    if es != [] {
      var init, e := es[..|es| - 1], es[|es| - 1];
      ResultsAreCommands(p, init, i);
      RunKeepsInv(p, init);
      assert es == init + [e];
      assert After(p, es).value == Next(p, After(p, init).value, e);
    }
  }

  /** Main result: in every interleaving no more than maxJobs jobs are in flight, a command
      runs only when its parent has passed, and no job is reported twice; and when the main
      loop is done every job has been reported exactly once. */
  lemma {:induction false} Scheduled(p: Plan, es: seq<Event>)
    requires Sane(p) && After(p, es).Some?
    ensures var s := After(p, es).value;
            && Weigh(s.jobs, InFlight) <= p.maxJobs
            && (forall i :: 0 <= i < |s.jobs| && s.jobs[i] == Running ==> Passed(p, s, i))
            && (forall i :: 0 <= i < |s.jobs| ==> Reports(es, i) <= 1)
            && (s.main == Completed ==> forall i :: 0 <= i < |s.jobs| ==> Reports(es, i) == 1)
  {
    RunKeepsInv(p, es);
    var s := After(p, es).value;
    WeighNone(s.jobs, InFlight);
    forall i | 0 <= i < |s.jobs| ensures Reports(es, i) <= 1 && (s.main == Completed ==> Reports(es, i) == 1) {
      ReportsOnce(p, es, i);
      assert s.main == Completed ==> InFlight(s.jobs[i]) == 0;
    }
  }

  // ----- progress -----

  /** The next step of a started job that does not wait for the main loop: its own, or that
      of an earlier job it is waiting for. */
  lemma {:induction false} CanProceed(p: Plan, s: State, i: nat) returns (e: Event)
    requires Inv(p, s) && i < s.next && !s.jobs[i].Sent? && !s.jobs[i].Reported?
    ensures Enabled(p, s, e)
  {
    match s.jobs[i]
    case Waiting =>
      if p.parent[i].None? {
        e := ParentPassed(i);
      } else {
        var k := p.parent[i].value;
        if DoneClosed(s.jobs[k]) {
          e := if s.jobs[k].ok then ParentPassed(i) else ParentFailed(i);
        } else {
          e := CanProceed(p, s, k);
        }
      }
    case Running => e := CommandEnds(i, true);
    case Over(_) => e := Close(i);
    case Closed(_) => e := Send(i);
  }

  /** The machine is never stuck: until it is done, something can happen. */
  lemma {:induction false} NeverStuck(p: Plan, s: State) returns (e: Event)
    requires Inv(p, s) && s.main != Completed
    ensures Enabled(p, s, e)
  {
    if i: nat :| i < s.next && !s.jobs[i].Sent? && !s.jobs[i].Reported? {
      e := CanProceed(p, s, i);
    } else if s.main == Spawning && s.next == |s.jobs| {
      e := StartDraining;
    } else if s.main == Spawning && s.active != p.maxJobs {
      e := Spawn;
    } else if s.main == Draining(0) {
      e := Complete;
    } else {
      WeighNone(s.jobs, InFlight);
      var i: nat :| i < |s.jobs| && InFlight(s.jobs[i]) != 0;
      e := if s.main == Spawning then TakeSlot(i) else Drain(i);
    }
  }

  function Rank(g: Progress): int {
    match g
    case Unstarted => 6
    case Waiting => 5
    case Running => 4
    case Over(_) => 3
    case Closed(_) => 2
    case Sent(_) => 1
    case Reported(_) => 0
  }

  function Left(s: State): int {
    Weigh(s.jobs, Rank) + match s.main case Spawning => 2 case Draining(_) => 1 case Completed => 0
  }

  lemma {:induction false} LeftDrops(p: Plan, s: State, e: Event)
    requires Inv(p, s) && Enabled(p, s, e)
    ensures 0 <= Left(Next(p, s, e)) < Left(s)
  {
    WeighNatural(Next(p, s, e).jobs, Rank);
    var m := Mover(p, s, e);
    if m.Some? {
      WeighMoved(s.jobs, m.value.0, m.value.1, Rank);
      assert Next(p, s, e).jobs == s.jobs[m.value.0 := m.value.1];
    }
  }

  /** Every run is finite, and one that cannot go on has completed. */
  lemma {:induction false} Completes(p: Plan, es: seq<Event>)
    requires Sane(p) && After(p, es).Some?
    ensures |es| + Left(After(p, es).value) <= Left(Begin(p)) && 0 <= Left(After(p, es).value)
    ensures After(p, es).value.main == Completed || exists e :: Enabled(p, After(p, es).value, e)
  {
    if es == [] {
      WeighNatural(Begin(p).jobs, Rank);
    } else {
      var init := es[..|es| - 1];
      Completes(p, init);
      RunKeepsInv(p, init);
      LeftDrops(p, After(p, init).value, es[|es| - 1]);
    }
    RunKeepsInv(p, es);
    if After(p, es).value.main != Completed {
      var e := NeverStuck(p, After(p, es).value);
    }
  }

  // ----- the queue as a plan -----

  /** The position of a job in the queue. */
  function Find(q: seq<Job>, j: Job): Option<nat> {
    if q == [] then None
    else if q[|q| - 1] == j then Some(|q| - 1)
    else Find(q[..|q| - 1], j)
  }

  lemma {:induction false} FindMeans(q: seq<Job>, j: Job)
    ensures Find(q, j).Some? ==> Find(q, j).value < |q| && q[Find(q, j).value] == j
    ensures j in q ==> Find(q, j).Some?
  {
    if q != [] && q[|q| - 1] != j {
      FindMeans(q[..|q| - 1], j);
    }
  }

  /** What each job of a machine waits for. */
  function PlanOf(l: Lab, m: nat, maxJobs: nat): Plan {
    var q := Queue(l, m);
    Plan(seq(|q|, i requires 0 <= i < |q| => if q[i].phase == 0 || l.cached(Job(0, q[i].id)) then None
                                             else Find(q, Job(0, q[i].id))), maxJobs)
  }

  lemma {:induction false} SameJob(q: seq<Job>, k: nat, f: nat)
    requires forall i, j :: 0 <= i < j < |q| ==> q[i] != q[j]
    requires k < |q| && f < |q| && q[k] == q[f]
    ensures k == f
  {
  }

  /** The queues that are built can always be run to the end: a benchmark whose test is not
      cached waits for just that test, which is before it in the queue. */
  lemma {:induction false} PlanIsSane(l: Lab, m: nat, maxJobs: nat)
    requires maxJobs > 0
    ensures Sane(PlanOf(l, m, maxJobs))
    ensures var q, p := Queue(l, m), PlanOf(l, m, maxJobs);
            forall i :: 0 <= i < |q| ==>
              if q[i].phase > 0 && !l.cached(Job(0, q[i].id)) then
                p.parent[i].Some? && q[p.parent[i].value] == Job(0, q[i].id)
              else p.parent[i].None?
  {
    var q, p := Queue(l, m), PlanOf(l, m, maxJobs);
    forall i | 0 <= i < |q| && q[i].phase > 0 && !l.cached(Job(0, q[i].id))
      ensures p.parent[i].Some? && p.parent[i].value < i && q[p.parent[i].value] == Job(0, q[i].id)
    {
      var k := ParentBefore(l, m, 1 + l.reps, i);
      FindMeans(q, Job(0, q[i].id));
      QueuedOnce(l, m, 1 + l.reps);
      SameJob(q, k, p.parent[i].value);
    }
  }
}
