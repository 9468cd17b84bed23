/** The Tailscale daemon: clients, the idle timer and the registered server, stepping in any order. */
module Daemon {
  import opened Common

  /** What the goroutines share: the fields under the daemon's and the log's locks, the
      timer, expire calls that have started but not run yet, and the service socket. */
  datatype Shared = Shared(active: int, serving: bool, armed: bool, pending: nat, open: bool, log: Option<nat>)

  function Adjusted(d: Shared, n: int): Shared {
    d.(active := d.active + n, armed := d.active + n <= 0)
  }

  function Expired(d: Shared): Shared
    requires d.pending > 0
  {
    d.(pending := d.pending - 1, open := d.open && d.active > 0)
  }

  function Fired(d: Shared): Shared {
    d.(armed := false, pending := d.pending + 1)
  }

  function Closed(d: Shared): Shared {
    d.(open := false)
  }

  function Detached(d: Shared, c: nat): Shared {
    if d.log == Some(c) then d.(log := None) else d
  }

  /** The shared state, updated in place: each method is what one goroutine does while it
      holds the lock. */
  class Node {
    var active: int
    var serving: bool
    var armed: bool
    var pending: nat
    var open: bool
    var log: Option<nat>

    constructor ()
      ensures Value() == Shared(0, false, true, 0, true, None)
    {
      active, serving, armed, pending, open, log := 0, false, true, 0, true, None;
    }

    function Value(): Shared
      reads this
    {
      Shared(active, serving, armed, pending, open, log)
    }

    method Add(n: int)
      modifies this
      ensures active == old(active) + n && (armed <==> active <= 0)
      ensures serving == old(serving) && pending == old(pending) && open == old(open) && log == old(log)
      ensures Value() == Adjusted(old(Value()), n)
    {
      active := active + n;
      if active > 0 {
        armed := false;
      } else {
        armed := true;
      }
    }

    method Expire()
      requires pending > 0
      modifies this
      ensures pending == old(pending) - 1 && (open <==> old(open) && active > 0)
      ensures active == old(active) && serving == old(serving) && armed == old(armed) && log == old(log)
      ensures Value() == Expired(old(Value()))
    {
      pending := pending - 1;
      if active > 0 {
        return;
      }
      open := false;
    }

    method Stop()
      modifies this
      ensures !open
      ensures active == old(active) && serving == old(serving) && armed == old(armed)
      ensures pending == old(pending) && log == old(log)
      ensures Value() == Closed(old(Value()))
    {
      open := false;
    }

    /** Registers a server, unless there is one. */
    method Register() returns (ok: bool)
      modifies this
      ensures ok == !old(serving) && Value() == old(Value()).(serving := true)
    {
      if serving {
        return false;
      }
      serving := true;
      return true;
    }

    method Unregister()
      modifies this
      ensures Value() == old(Value()).(serving := false)
    {
      serving := false;
    }

    method Attach(c: nat)
      modifies this
      ensures Value() == old(Value()).(log := Some(c))
    {
      log := Some(c);
    }

    method Detach(c: nat)
      modifies this
      ensures log == if old(log) == Some(c) then None else old(log)
      ensures Value() == Detached(old(Value()), c)
    {
      if log == Some(c) {
        log := None;
      }
    }
  }

  // ----- the goroutines -----

  /** Where the accept loop is. */
  datatype Loop = Accepting | Holding | Waiting | Returned

  /** Where a connection is: with the accept loop until its goroutine starts; then reading
      its request; registered as a server, with the log, no longer registered; about to be
      discounted; about to leave the wait group. */
  datatype Phase =
    | Accepted | Counted | Grouped
    | Reading | Registered | Attached | Unregistered
    | Leaving | Discounted | Finished

  datatype State = State(d: Shared, loop: Loop, group: int, clients: seq<Phase>)

  datatype Event =
    | Accept | CountNew | GroupNew | StartNew | AcceptFails | AcceptError | WaitOver
    | TimerFires | ExpireRuns
    | Leave(c: nat) | StopRequest(c: nat)
    | Register(c: nat) | AttachLog(c: nat) | Unregister(c: nat) | DetachLog(c: nat)
    | Discount(c: nat) | LeaveGroup(c: nat)

  function Start(): State {
    State(Shared(0, false, true, 0, true, None), Accepting, 0, [])
  }

  predicate At(s: State, c: nat, p: Phase) {
    c < |s.clients| && s.clients[c] == p
  }

  predicate Newest(s: State, p: Phase) {
    s.loop == Holding && s.clients != [] && s.clients[|s.clients| - 1] == p
  }

  predicate Enabled(s: State, e: Event) {
    match e
    case Accept => s.loop == Accepting && s.d.open
    case CountNew => Newest(s, Accepted)
    case GroupNew => Newest(s, Counted)
    case StartNew => Newest(s, Grouped)
    case AcceptFails => s.loop == Accepting && !s.d.open
    case AcceptError => s.loop == Accepting && s.d.open
    case WaitOver => s.loop == Waiting && s.group == 0
    case TimerFires => s.d.armed
    case ExpireRuns => s.d.pending > 0
    case Leave(c) => At(s, c, Reading)
    case StopRequest(c) => At(s, c, Reading)
    case Register(c) => At(s, c, Reading) && !s.d.serving
    case AttachLog(c) => At(s, c, Registered)
    case Unregister(c) => At(s, c, Registered) || At(s, c, Attached)
    case DetachLog(c) => At(s, c, Unregistered)
    case Discount(c) => At(s, c, Leaving)
    case LeaveGroup(c) => At(s, c, Discounted)
  }

  function Moved(s: State, c: nat, p: Phase): State
    requires c < |s.clients|
  {
    s.(clients := s.clients[c := p])
  }

  function Next(s: State, e: Event): State
    requires Enabled(s, e)
  {
    var last := |s.clients| - 1;
    match e
    case Accept => s.(loop := Holding, clients := s.clients + [Accepted])
    case CountNew => Moved(s, last, Counted).(d := Adjusted(s.d, 1))
    case GroupNew => Moved(s, last, Grouped).(group := s.group + 1)
    case StartNew => Moved(s, last, Reading).(loop := Accepting)
    case AcceptFails => s.(loop := Waiting)
    case AcceptError => s.(loop := Waiting)
    case WaitOver => s.(loop := Returned, d := s.d.(armed := false, open := false))
    case TimerFires => s.(d := Fired(s.d))
    case ExpireRuns => s.(d := Expired(s.d))
    case Leave(c) => Moved(s, c, Leaving)
    case StopRequest(c) => Moved(s, c, Leaving).(d := Closed(s.d))
    case Register(c) => Moved(s, c, Registered).(d := s.d.(serving := true))
    case AttachLog(c) => Moved(s, c, Attached).(d := s.d.(log := Some(c)))
    case Unregister(c) => Moved(s, c, Unregistered).(d := s.d.(serving := false))
    case DetachLog(c) => Moved(s, c, Leaving).(d := Detached(s.d, c))
    case Discount(c) => Moved(s, c, Discounted).(d := Adjusted(s.d, -1))
    case LeaveGroup(c) => Moved(s, c, Finished).(group := s.group - 1)
  }

  // ----- counting clients -----

  /** Between add(1) and add(-1). */
  function IsCounted(p: Phase): int {
    match p
    case Accepted => 0
    case Discounted => 0
    case Finished => 0
    case _ => 1
  }

  /** Between the two calls on the wait group. */
  function IsGrouped(p: Phase): int {
    match p
    case Accepted => 0
    case Counted => 0
    case Finished => 0
    case _ => 1
  }

  function IsServing(p: Phase): int {
    if p == Registered || p == Attached then 1 else 0
  }

  // ----- the invariant -----

  /** Only the newest connection is still with the accept loop, and only while it holds one. */
  predicate Owned(s: State) {
    && (forall c :: 0 <= c < |s.clients| && s.clients[c] in {Accepted, Counted, Grouped} ==>
          s.loop == Holding && c == |s.clients| - 1)
    && (s.loop == Holding ==> s.clients != [] && s.clients[|s.clients| - 1] in {Accepted, Counted, Grouped})
  }

  /** The log belongs to the server that has it, or to one about to give it back. */
  predicate LogOwned(s: State) {
    && (s.d.log.Some? ==> At(s, s.d.log.value, Attached) || At(s, s.d.log.value, Unregistered))
    && (forall c :: 0 <= c < |s.clients| && s.clients[c] == Attached ==> s.d.log == Some(c))
  }

  predicate Inv(s: State) {
    && s.d.active == Weigh(s.clients, IsCounted)
    && s.group == Weigh(s.clients, IsGrouped)
    && Weigh(s.clients, IsServing) == (if s.d.serving then 1 else 0)
    && (s.d.open && s.d.active == 0 && s.loop != Returned ==> s.d.armed || s.d.pending > 0)
    && (s.loop == Returned ==> !s.d.open && !s.d.armed)
    && (s.loop == Returned ==> s.group == 0)
    && Owned(s)
    && LogOwned(s)
  }

  lemma {:induction false} StartInv()
    ensures Inv(Start())
  {
  }

  /** Moving one client. */
  lemma {:induction false} CountsMoved(s: State, c: nat, p: Phase)
    requires c < |s.clients|
    ensures var t, q := s.clients[c := p], s.clients[c];
            && Weigh(t, IsCounted) == Weigh(s.clients, IsCounted) - IsCounted(q) + IsCounted(p)
            && Weigh(t, IsGrouped) == Weigh(s.clients, IsGrouped) - IsGrouped(q) + IsGrouped(p)
            && Weigh(t, IsServing) == Weigh(s.clients, IsServing) - IsServing(q) + IsServing(p)
  {
    WeighMoved(s.clients, c, p, IsCounted);
    WeighMoved(s.clients, c, p, IsGrouped);
    WeighMoved(s.clients, c, p, IsServing);
  }

  /** At most one client is registered as a server. */
  lemma {:induction false} OneServer(s: State, b: nat, c: nat)
    requires Inv(s) && b < |s.clients| && c < |s.clients|
    requires IsServing(s.clients[b]) == 1 && IsServing(s.clients[c]) == 1
    ensures s.d.serving && b == c
  {
    WeighAll(s.clients, c, IsServing);
    if b != c {
      WeighMoved(s.clients, b, Finished, IsServing);
      WeighAll(s.clients[b := Finished], c, IsServing);
    }
  }

  /** A client past the accept loop stays past it. */
  lemma {:induction false} OwnedMoved(s: State, c: nat, p: Phase)
    requires Owned(s) && c < |s.clients|
    requires s.clients[c] !in {Accepted, Counted, Grouped} && p !in {Accepted, Counted, Grouped}
    ensures Owned(Moved(s, c, p))
  {
    assert forall b :: 0 <= b < |s.clients| && b != c ==> s.clients[c := p][b] == s.clients[b];
  }

  lemma {:induction false} LogMoved(s: State, c: nat, p: Phase)
    requires LogOwned(s) && c < |s.clients|
    requires s.clients[c] != Attached && s.clients[c] != Unregistered && p != Attached
    ensures LogOwned(Moved(s, c, p))
  {
    assert forall b :: 0 <= b < |s.clients| && b != c ==> s.clients[c := p][b] == s.clients[b];
  }

  lemma {:induction false} AcceptKeepsInv(s: State)
    requires Inv(s) && Enabled(s, Accept)
    ensures Inv(Next(s, Accept))
  {
    WeighPush(s.clients, Accepted, IsCounted);
    WeighPush(s.clients, Accepted, IsGrouped);
    WeighPush(s.clients, Accepted, IsServing);
    assert forall b :: 0 <= b < |s.clients| ==> (s.clients + [Accepted])[b] == s.clients[b];
  }

  /** The accept loop hands the newest connection on. */
  lemma {:induction false} NewestKeepsInv(s: State, e: Event)
    requires Inv(s) && Enabled(s, e) && e in {CountNew, GroupNew, StartNew}
    ensures Inv(Next(s, e))
  {
    var last := |s.clients| - 1;
    var p := if e == CountNew then Counted else if e == GroupNew then Grouped else Reading;
    assert Next(s, e).clients == s.clients[last := p];
    CountsMoved(s, last, p);
    WeighNatural(s.clients, IsCounted);
    LogMoved(s, last, p);
    assert forall b :: 0 <= b < last ==> s.clients[last := p][b] == s.clients[b];
  }

  lemma {:induction false} RegisterKeepsInv(s: State, c: nat)
    requires Inv(s) && Enabled(s, Register(c))
    ensures Inv(Next(s, Register(c)))
  {
    CountsMoved(s, c, Registered);
    OwnedMoved(s, c, Registered);
    LogMoved(s, c, Registered);
  }

  lemma {:induction false} AttachKeepsInv(s: State, c: nat)
    requires Inv(s) && Enabled(s, AttachLog(c))
    ensures Inv(Next(s, AttachLog(c)))
  {
    CountsMoved(s, c, Attached);
    OwnedMoved(s, c, Attached);
    forall b | 0 <= b < |s.clients| && s.clients[b] == Attached ensures b == c {
      OneServer(s, b, c);
    }
  }

  lemma {:induction false} UnregisterKeepsInv(s: State, c: nat)
    requires Inv(s) && Enabled(s, Unregister(c))
    ensures Inv(Next(s, Unregister(c)))
  {
    WeighAll(s.clients, c, IsServing);
    CountsMoved(s, c, Unregistered);
    OwnedMoved(s, c, Unregistered);
    assert forall b :: 0 <= b < |s.clients| && b != c ==> s.clients[c := Unregistered][b] == s.clients[b];
  }

  lemma {:induction false} DetachKeepsInv(s: State, c: nat)
    requires Inv(s) && Enabled(s, DetachLog(c))
    ensures Inv(Next(s, DetachLog(c)))
  {
    CountsMoved(s, c, Leaving);
    OwnedMoved(s, c, Leaving);
    assert forall b :: 0 <= b < |s.clients| && b != c ==> s.clients[c := Leaving][b] == s.clients[b];
  }

  lemma {:induction false} ClientKeepsInv(s: State, c: nat, e: Event)
    requires Inv(s) && Enabled(s, e)
    requires e in {Leave(c), StopRequest(c), LeaveGroup(c)}
    ensures Inv(Next(s, e))
  {
    var p := if e == LeaveGroup(c) then Finished else Leaving;
    assert Next(s, e).clients == s.clients[c := p];
    WeighAll(s.clients, c, IsGrouped);
    CountsMoved(s, c, p);
    OwnedMoved(s, c, p);
    LogMoved(s, c, p);
  }

  lemma {:induction false} DiscountKeepsInv(s: State, c: nat)
    requires Inv(s) && Enabled(s, Discount(c))
    ensures Inv(Next(s, Discount(c)))
  {
    WeighAll(s.clients, c, IsGrouped);
    CountsMoved(s, c, Discounted);
    OwnedMoved(s, c, Discounted);
    LogMoved(s, c, Discounted);
  }

  /** Every step of every goroutine keeps the invariant. */
  lemma {:induction false} StepKeepsInv(s: State, e: Event)
    requires Inv(s) && Enabled(s, e)
    ensures Inv(Next(s, e))
  {
    match e
    case Leave(c) => ClientKeepsInv(s, c, e);
    case StopRequest(c) => ClientKeepsInv(s, c, e);
    case Discount(c) => DiscountKeepsInv(s, c);
    case LeaveGroup(c) => ClientKeepsInv(s, c, e);
    case Register(c) => RegisterKeepsInv(s, c);
    case AttachLog(c) => AttachKeepsInv(s, c);
    case Unregister(c) => UnregisterKeepsInv(s, c);
    case DetachLog(c) => DetachKeepsInv(s, c);
    case Accept => AcceptKeepsInv(s);
    case CountNew => NewestKeepsInv(s, e);
    case GroupNew => NewestKeepsInv(s, e);
    case StartNew => NewestKeepsInv(s, e);
    case _ =>
  }

  // ----- all runs -----

  /** The state after a sequence of steps, if they can be taken. */
  function After(s: State, es: seq<Event>): Option<State> {
    if es == [] then Some(s)
    else
      var r := After(s, es[..|es| - 1]);
      if r.Some? && Enabled(r.value, es[|es| - 1]) then Some(Next(r.value, es[|es| - 1])) else None
  }

  lemma {:induction false} RunKeepsInv(s: State, es: seq<Event>)
    requires Inv(s) && After(s, es).Some?
    ensures Inv(After(s, es).value)
  {
    if es != [] {
      RunKeepsInv(s, es[..|es| - 1]);
      StepKeepsInv(After(s, es[..|es| - 1]).value, es[|es| - 1]);
    }
  }

  predicate IsServer(s: State, c: nat) {
    c < |s.clients| && IsServing(s.clients[c]) == 1
  }

  /** What holds after every run of the daemon, in every interleaving. */
  lemma {:induction false} Safety(es: seq<Event>)
    requires After(Start(), es).Some?
    ensures var s := After(Start(), es).value;
            && s.d.active == Weigh(s.clients, IsCounted)
            && (s.d.open && s.d.active == 0 && s.loop != Returned ==> s.d.armed || s.d.pending > 0)
            && (s.loop == Returned ==> !s.d.open && !s.d.armed)
            && (s.loop == Returned ==> forall c :: 0 <= c < |s.clients| ==> s.clients[c] == Finished)
            && (forall b, c :: IsServer(s, b) && IsServer(s, c) ==> s.d.serving && b == c)
  {
    StartInv();
    RunKeepsInv(Start(), es);
    var s := After(Start(), es).value;
    forall c | 0 <= c < |s.clients| && s.loop == Returned ensures s.clients[c] == Finished {
      WeighAll(s.clients, c, IsGrouped);
    }
    forall b, c | IsServer(s, b) && IsServer(s, c) ensures s.d.serving && b == c {
      OneServer(s, b, c);
    }
  }

  predicate StopsAt(es: seq<Event>, k: nat) {
    k < |es| && es[k].StopRequest?
  }

  /** In any run, once a client has asked for it, the socket is closed and stays closed, so
      that no connection is accepted any more. */
  lemma {:induction false} StopStops(es: seq<Event>, k: nat)
    requires After(Start(), es).Some? && StopsAt(es, k)
    ensures !After(Start(), es).value.d.open
    ensures forall i :: k < i < |es| ==> es[i] != Accept
  {
    var n := |es| - 1;
    if k < n {
      StopStops(es[..n], k);
      forall i | k < i < |es| ensures es[i] != Accept {
        assert i < n ==> es[i] == es[..n][i];
      }
      StaysClosed(After(Start(), es[..n]).value, es[n]);
    }
  }

  lemma {:induction false} StaysClosed(s: State, e: Event)
    requires Enabled(s, e) && !s.d.open
    ensures e != Accept && !Next(s, e).d.open
  {
  }

  /** The socket is closed only by a stop, by an expire call while no client is counted, or
      when the accept loop has returned. */
  lemma {:induction false} ClosedBy(s: State, e: Event)
    requires Enabled(s, e) && s.d.open && !Next(s, e).d.open
    ensures e.StopRequest? || e == WaitOver || (e == ExpireRuns && s.d.active <= 0)
  {
  }

  /** A firing timer closes the socket only when no client is counted. */
  lemma {:induction false} ExpireSparesClients(s: State, c: nat)
    requires Inv(s) && Enabled(s, ExpireRuns) && s.d.open && !Next(s, ExpireRuns).d.open
    requires c < |s.clients|
    ensures s.clients[c] in {Accepted, Discounted, Finished}
  {
    WeighAll(s.clients, c, IsCounted);
  }

  /** A registered server keeps the log, whatever the others do, until it unregisters. */
  lemma {:induction false} ServerKeepsLog(s: State, c: nat, e: Event)
    requires Inv(s) && At(s, c, Attached) && Enabled(s, e) && e != Unregister(c)
    ensures At(Next(s, e), c, Attached) && Next(s, e).d.log == Some(c)
  {
    StepKeepsInv(s, e);
  }

  /** The last client is discounted, which arms the timer anew, while an expire call is
      still under way on an open socket. */
  predicate Rearms(s: State, e: Event) {
    Enabled(s, e) && e.Discount? && s.d.active <= 1 && s.d.pending > 0 && s.d.open
  }

  /** An expire call that runs now closes the socket although the timer is armed. */
  predicate ClosesArmed(s: State) {
    Enabled(s, ExpireRuns) && s.d.open && s.d.armed && !Next(s, ExpireRuns).d.open
  }

  predicate RearmsAt(es: seq<Event>, k: nat) {
    k < |es| && After(Start(), es[..k]).Some? && Rearms(After(Start(), es[..k]).value, es[k])
  }

  predicate ClosesArmedAt(es: seq<Event>, k: nat) {
    k <= |es| && After(Start(), es[..k]).Some? && ClosesArmed(After(Start(), es[..k]).value)
  }

  /** In any run, an expire call can at some point close the socket of a daemon whose timer
      is armed exactly when some step arms it while an expire call is under way. */
  lemma {:induction false} StaleExpire(es: seq<Event>)
    requires After(Start(), es).Some?
    ensures (exists k: nat :: ClosesArmedAt(es, k)) <==> (exists k: nat :: RearmsAt(es, k))
  {
    if k: nat :| ClosesArmedAt(es, k) {
      var j := RearmedBefore(es[..k]);
      assert es[..k][..j] == es[..j];
      assert RearmsAt(es, j);
    }
    if k: nat :| RearmsAt(es, k) {
      RearmedCloses(es, k);
    }
  }

  lemma {:induction false} RearmedCloses(es: seq<Event>, k: nat)
    requires RearmsAt(es, k)
    ensures ClosesArmedAt(es, k + 1)
  {
    StartInv();
    RunKeepsInv(Start(), es[..k]);
    AfterPush(Start(), es[..k], es[k]);
    assert es[..k] + [es[k]] == es[..k + 1];
    RearmedThenCloses(After(Start(), es[..k]).value, es[k]);
  }

  lemma {:induction false} RearmedThenCloses(s: State, e: Event)
    requires Inv(s) && Rearms(s, e)
    ensures ClosesArmed(Next(s, e))
  {
    StepKeepsInv(s, e);
  }

  /** When the timer of an open daemon is armed with an expire call under way, it was armed
      while one was. */
  lemma {:induction false} RearmedBefore(es: seq<Event>) returns (k: nat)
    requires After(Start(), es).Some?
    requires var d := After(Start(), es).value.d; d.open && d.armed && d.pending > 0
    ensures RearmsAt(es, k)
  {
    assert es != [];
    var n := |es| - 1;
    var s := After(Start(), es[..n]).value;
    if Rearms(s, es[n]) {
      k := n;
    } else {
      StartInv();
      RunKeepsInv(Start(), es[..n]);
      StillArmed(s, es[n]);
      k := RearmedBefore(es[..n]);
      assert es[..n][..k] == es[..k];
    }
  }

  lemma {:induction false} StillArmed(s: State, e: Event)
    requires Inv(s) && Enabled(s, e) && !Rearms(s, e)
    requires var d := Next(s, e).d; d.open && d.armed && d.pending > 0
    ensures s.d.open && s.d.armed && s.d.pending > 0
  {
    WeighNatural(s.clients, IsCounted);
  }

  /** A client connects while an expire call is under way. */
  lemma {:induction false} ClientComes()
    ensures After(Start(), [TimerFires, Accept, CountNew, GroupNew, StartNew]) ==
            Some(State(Shared(1, false, false, 1, true, None), Accepting, 1, [Reading]))
  {
    var d0, d1 := Shared(0, false, false, 1, true, None), Shared(1, false, false, 1, true, None);
    var es: seq<Event> := [];
    Take(es, TimerFires, Start(), State(d0, Accepting, 0, []));
    es := es + [TimerFires];
    Take(es, Accept, State(d0, Accepting, 0, []), State(d0, Holding, 0, [Accepted]));
    es := es + [Accept];
    Take(es, CountNew, State(d0, Holding, 0, [Accepted]), State(d1, Holding, 0, [Counted]));
    es := es + [CountNew];
    Take(es, GroupNew, State(d1, Holding, 0, [Counted]), State(d1, Holding, 1, [Grouped]));
    es := es + [GroupNew];
    Take(es, StartNew, State(d1, Holding, 1, [Grouped]), State(d1, Accepting, 1, [Reading]));
    assert es + [StartNew] == [TimerFires, Accept, CountNew, GroupNew, StartNew];
  }

  /** This happens: the client goes while the expire call is still under way. */
  lemma {:induction false} StaleExpireRun()
    ensures var r := After(Start(), [TimerFires, Accept, CountNew, GroupNew, StartNew, Leave(0), Discount(0),
        ExpireRuns]);
            r.Some? && r.value.d.armed && !r.value.d.open
  {
    ClientComes();
    var es := [TimerFires, Accept, CountNew, GroupNew, StartNew];
    var d1, d2 := Shared(1, false, false, 1, true, None), Shared(0, false, true, 1, true, None);
    var d3 := Shared(0, false, true, 0, false, None);
    Take(es, Leave(0), State(d1, Accepting, 1, [Reading]), State(d1, Accepting, 1, [Leaving]));
    Take(es + [Leave(0)], Discount(0), State(d1, Accepting, 1, [Leaving]), State(d2, Accepting, 1, [Discounted]));
    Take(es + [Leave(0)] + [Discount(0)], ExpireRuns, State(d2, Accepting, 1, [Discounted]),
         State(d3, Accepting, 1, [Discounted]));
    assert es + [Leave(0)] + [Discount(0)] + [ExpireRuns] ==
           [TimerFires, Accept, CountNew, GroupNew, StartNew, Leave(0), Discount(0), ExpireRuns];
  }

  lemma {:induction false} Take(es: seq<Event>, e: Event, s: State, t: State)
    requires After(Start(), es) == Some(s) && Enabled(s, e) && Next(s, e) == t
    ensures After(Start(), es + [e]) == Some(t)
  {
    AfterPush(Start(), es, e);
  }

  lemma {:induction false} AfterPush(s: State, es: seq<Event>, e: Event)
    ensures After(s, es + [e]) ==
            if After(s, es).Some? && Enabled(After(s, es).value, e) then Some(Next(After(s, es).value, e)) else None
  {
    assert (es + [e])[..|es|] == es;
  }

  // ----- the daemon ends when clients stop coming -----

  function Rank(p: Phase): int {
    match p
    case Accepted => 11
    case Counted => 10
    case Grouped => 9
    case Reading => 8
    case Registered => 7
    case Attached => 6
    case Unregistered => 5
    case Leaving => 4
    case Discounted => 1
    case Finished => 0
  }

  /** What is left to do before the daemon returns, if nobody else connects. */
  function Left(s: State): int {
    Weigh(s.clients, Rank) + (if s.d.armed then 2 else 0) + s.d.pending +
    match s.loop case Holding => 3 case Accepting => 2 case Waiting => 1 case Returned => 0
  }

  /** The client a step moves, and where to. */
  function Mover(s: State, e: Event): Option<(nat, Phase)>
    requires Enabled(s, e)
  {
    match e
    case CountNew => Some((|s.clients| - 1, Counted))
    case GroupNew => Some((|s.clients| - 1, Grouped))
    case StartNew => Some((|s.clients| - 1, Reading))
    case Leave(c) => Some((c, Leaving))
    case StopRequest(c) => Some((c, Leaving))
    case Register(c) => Some((c, Registered))
    case AttachLog(c) => Some((c, Attached))
    case Unregister(c) => Some((c, Unregistered))
    case DetachLog(c) => Some((c, Leaving))
    case Discount(c) => Some((c, Discounted))
    case LeaveGroup(c) => Some((c, Finished))
    case _ => None
  }

  /** A step lowers the rank of the client it moves. */
  lemma {:induction false} RankDrops(s: State, e: Event)
    requires Inv(s) && Enabled(s, e) && e != Accept
    ensures var m := Mover(s, e);
            Weigh(Next(s, e).clients, Rank) ==
            Weigh(s.clients, Rank) - if m.Some? then Rank(s.clients[m.value.0]) - Rank(m.value.1) else 0
  {
    var m := Mover(s, e);
    if m.Some? {
      assert Next(s, e).clients == s.clients[m.value.0 := m.value.1];
      WeighMoved(s.clients, m.value.0, m.value.1, Rank);
    }
  }

  lemma {:induction false} LeftDrops(s: State, e: Event)
    requires Inv(s) && Enabled(s, e) && e != Accept
    ensures 0 <= Left(Next(s, e)) < Left(s)
  {
    RankDrops(s, e);
    WeighNatural(Next(s, e).clients, Rank);
    WeighNatural(s.clients, IsCounted);
  }

  /** The next step of a client that has not finished. */
  function Own(s: State, c: nat): Event
    requires c < |s.clients| && s.clients[c] != Finished
  {
    match s.clients[c]
    case Accepted => CountNew
    case Counted => GroupNew
    case Grouped => StartNew
    case Reading => Leave(c)
    case Registered => Unregister(c)
    case Attached => Unregister(c)
    case Unregistered => DetachLog(c)
    case Leaving => Discount(c)
    case _ => LeaveGroup(c)
  }

  lemma {:induction false} AllFinished(ps: seq<Phase>, w: Phase -> int)
    requires w(Finished) == 0 && forall c :: 0 <= c < |ps| ==> ps[c] == Finished
    ensures Weigh(ps, w) == 0
  {
    if ps != [] {
      AllFinished(ps[..|ps| - 1], w);
    }
  }

  /** What comes from outside: a connection, or an error although the socket is open. */
  predicate Outside(e: Event) {
    e == Accept || e == AcceptError
  }

  /** The daemon is never stuck: until it returns, something can happen of its own accord. */
  lemma {:induction false} NeverStuck(s: State) returns (e: Event)
    requires Inv(s) && s.loop != Returned
    ensures !Outside(e) && Enabled(s, e)
  {
    if c: nat :| c < |s.clients| && s.clients[c] != Finished {
      e := Own(s, c);
    } else {
      AllFinished(s.clients, IsCounted);
      AllFinished(s.clients, IsGrouped);
      e := if s.loop == Waiting then WaitOver
           else if !s.d.open then AcceptFails
           else if s.d.armed then TimerFires
           else ExpireRuns;
    }
  }

  /** Without new connections every run is short, and a run that cannot go on has returned. */
  lemma {:induction false} Terminates(s: State, es: seq<Event>)
    requires Inv(s) && After(s, es).Some? && Accept !in es
    ensures |es| + Left(After(s, es).value) <= Left(s) && 0 <= Left(After(s, es).value)
    ensures var t := After(s, es).value;
            t.loop == Returned || exists e :: !Outside(e) && Enabled(t, e)
  {
    if es != [] {
      var init, e := es[..|es| - 1], es[|es| - 1];
      assert e in es;
      Terminates(s, init);
      RunKeepsInv(s, init);
      LeftDrops(After(s, init).value, e);
    } else {
      WeighNatural(s.clients, Rank);
    }
    RunKeepsInv(s, es);
    if After(s, es).value.loop != Returned {
      var e := NeverStuck(After(s, es).value);
    }
  }
}
