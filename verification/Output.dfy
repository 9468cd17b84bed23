/** Streaming a command's output: two copiers and the final exit status share one connection. */
module Output {
  import opened Common
  import opened Encodings
  import opened Packets

  datatype Response = Output(stderr: bool) | Exit(code: int)

  /** The JSON encoding of responses. */
  datatype Json = Json(enc: Response -> Bytes, dec: Bytes -> Option<Response>)

  ghost predicate Encodes(json: Json, r: Response) {
    json.dec(json.enc(r)) == Some(r) && |json.enc(r)| <= MAX_JSON
  }

  ghost predicate JsonLaws(json: Json) {
    forall r :: Encodes(json, r)
  }

  const BUFFER := 0x8000

  // ----- the server's goroutines -----

  /** Where a copier is: reading its pipe, with a chunk to send, sending it, or at the end. */
  datatype Copier = Reading | Holding(chunk: Bytes) | Sending | Ended

  /** One of the command's outputs: what its copier has read, what the command writes after
      that, and the copier. */
  datatype Pipe = Pipe(read: Bytes, left: Bytes, copier: Copier)

  datatype Main = WaitingForCopiers | SendingExit | Over

  datatype Who = Copying(stderr: bool) | Exiting

  /** The outputs, the goroutines, whether the connection takes bytes and is watched for a
      Kill request, whether the command is to be killed and has died of it, its exit code, who
      has the write lock and what it still has to write, the bytes written, and the packets they
      make up. */
  datatype State = State(out: Pipe, err: Pipe, main: Main, alive: bool, watched: bool, killed: bool, dead: bool,
                         code: int, lock: Option<Who>, toWrite: Bytes, wire: Bytes, log: seq<Packet>)

  datatype Event =
    | ReadChunk(stderr: bool, n: nat) | Eof(stderr: bool) | LockCopier(stderr: bool)
    | WriteSome(k: nat) | Unlock | LockExit
    | FailCopier(stderr: bool) | FailExit
    | HangUp | KillSeen | Die(k: nat, j: nat, code: int)

  /** The command will write this to its outputs and exit with this code, if nobody kills it. */
  function Begin(out: Bytes, err: Bytes, code: int): State {
    State(Pipe([], out, Reading), Pipe([], err, Reading), WaitingForCopiers, true, true, false, false, code,
          None, [], [], [])
  }

  function PipeOf(s: State, stderr: bool): Pipe {
    if stderr then s.err else s.out
  }

  function WithPipe(s: State, stderr: bool, p: Pipe): State {
    if stderr then s.(err := p) else s.(out := p)
  }

  function WithCopier(s: State, stderr: bool, c: Copier): State {
    WithPipe(s, stderr, PipeOf(s, stderr).(copier := c))
  }

  /** All that the command writes to the pipe. */
  function Total(p: Pipe): Bytes {
    p.read + p.left
  }

  predicate Finished(s: State) {
    s.main == WaitingForCopiers && s.out.copier == Ended && s.err.copier == Ended && s.lock == None
  }

  /** The holder of the lock is in the middle of a packet. */
  predicate Writing(s: State, who: Who) {
    s.lock == Some(who) && s.toWrite != []
  }

  predicate Enabled(s: State, e: Event) {
    match e
    case ReadChunk(x, n) => PipeOf(s, x).copier == Reading && 0 < n <= |PipeOf(s, x).left| && n <= BUFFER
    case Eof(x) => PipeOf(s, x).copier == Reading && PipeOf(s, x).left == []
    case LockCopier(x) => s.alive && PipeOf(s, x).copier.Holding? && s.lock == None
    case WriteSome(k) => s.alive && s.lock.Some? && 0 < k <= |s.toWrite|
    case Unlock => s.lock.Some? && s.toWrite == []
    case LockExit => s.alive && Finished(s)
    case FailCopier(x) => !s.alive && ((PipeOf(s, x).copier.Holding? && s.lock == None) || Writing(s, Copying(x)))
    case FailExit => !s.alive && (Finished(s) || Writing(s, Exiting))
    case HangUp => s.alive
    case KillSeen => s.watched
    case Die(k, j, _) => s.main == WaitingForCopiers && s.killed && !s.dead && k <= |s.out.left| && j <= |s.err.left|
  }

  function Locked(s: State, who: Who, p: Packet): State {
    s.(lock := Some(who), toWrite := Coded(p), log := s.log + [p])
  }

  function Released(s: State): State
    requires s.lock.Some?
  {
    match s.lock.value
    case Copying(x) => WithCopier(s, x, Reading)
    case Exiting => s.(main := Over)
  }

  function Taken(p: Pipe, n: nat): Pipe
    requires n <= |p.left|
  {
    Pipe(p.read + p.left[..n], p.left[n..], Holding(p.left[..n]))
  }

  /** A copier that cannot write kills the command and ends; a Kill request or the end of the
      requests kills it unless it has exited; and a command that dies writes no more. */
  function Next(json: Json, s: State, e: Event): State
    requires Enabled(s, e)
  {
    match e
    case ReadChunk(x, n) => WithPipe(s, x, Taken(PipeOf(s, x), n))
    case Eof(x) => WithCopier(s, x, Ended)
    case LockCopier(x) =>
      Locked(WithCopier(s, x, Sending), Copying(x), Packet(json.enc(Output(x)), PipeOf(s, x).copier.chunk))
    case WriteSome(k) => s.(wire := s.wire + s.toWrite[..k], toWrite := s.toWrite[k..])
    case Unlock => Released(s).(lock := None)
    case LockExit => Locked(s.(main := SendingExit), Exiting, Packet(json.enc(Exit(s.code)), []))
    case FailCopier(x) => WithCopier(s, x, Ended).(killed := true, lock := None, toWrite := [])
    case FailExit => s.(main := Over, lock := None, toWrite := [])
    case HangUp => s.(alive := false)
    case KillSeen => s.(watched := false, killed := s.killed || s.main == WaitingForCopiers)
    case Die(k, j, code) =>
      s.(dead := true, code := code, out := s.out.(left := s.out.left[..k]), err := s.err.(left := s.err.left[..j]))
  }

  // ----- what the packets carry -----

  /** The output of one kind in these packets. */
  function Data(json: Json, ps: seq<Packet>, stderr: bool): Bytes {
    if ps == [] then []
    else
      var p := ps[|ps| - 1];
      Data(json, ps[..|ps| - 1], stderr) + if json.dec(p.js) == Some(Output(stderr)) then p.data else []
  }

  predicate IsExit(json: Json, p: Packet) {
    json.dec(p.js).Some? && json.dec(p.js).value.Exit?
  }

  predicate ExitsWith(json: Json, p: Packet, code: int) {
    json.dec(p.js) == Some(Exit(code))
  }

  predicate NoExit(json: Json, ps: seq<Packet>) {
    forall k :: 0 <= k < |ps| ==> !IsExit(json, ps[k])
  }

  function Held(c: Copier): Bytes {
    if c.Holding? then c.chunk else []
  }

  /** What was read of an output is what was sent and what its copier holds, unless a write
      has failed; and it is all of what the command writes once the copier has ended. */
  ghost predicate Balanced(p: Pipe, sent: Bytes, alive: bool, locked: bool) {
    && sent <= p.read
    && (alive || p.copier != Ended ==> p.read == sent + Held(p.copier))
    && (alive && p.copier == Ended ==> p.left == [])
    && (p.copier == Sending <==> locked)
    && (p.copier.Holding? ==> |p.copier.chunk| <= BUFFER)
  }

  ghost predicate Conserved(json: Json, s: State, x: bool) {
    Balanced(PipeOf(s, x), Data(json, s.log, x), s.alive, s.lock == Some(Copying(x)))
  }

  /** The command's exit status is the last packet, after all of both outputs. */
  ghost predicate Complete(json: Json, s: State) {
    && s.log != [] && ExitsWith(json, s.log[|s.log| - 1], s.code) && NoExit(json, s.log[..|s.log| - 1])
    && s.out.copier == Ended && s.err.copier == Ended
    && Data(json, s.log, false) == Total(s.out) && Data(json, s.log, true) == Total(s.err)
  }

  ghost predicate OnWire(s: State) {
    && AllFit(s.log) && s.wire <= CodedAll(s.log)
    && (s.alive ==> s.wire + s.toWrite == CodedAll(s.log))
    && (s.lock == None ==> s.toWrite == [])
    && (s.lock.Some? ==> |s.toWrite| <= PACKET)
  }

  /** Only a command that was killed writes less than it would have. */
  ghost predicate Written(s: State, out: Bytes, err: Bytes, code: int) {
    && Total(s.out) <= out && Total(s.err) <= err
    && (!s.dead ==> Total(s.out) == out && Total(s.err) == err && s.code == code)
    && (s.dead ==> s.killed)
  }

  ghost predicate Inv(json: Json, s: State) {
    Conserved(json, s, false) && Conserved(json, s, true) && OnWire(s) && Phased(json, s)
  }

  ghost predicate Phased(json: Json, s: State) {
    && (s.main == SendingExit <==> s.lock == Some(Exiting))
    && (s.main == WaitingForCopiers ==> NoExit(json, s.log))
    && (s.main != WaitingForCopiers ==> s.out.copier == Ended && s.err.copier == Ended)
    && (NoExit(json, s.log) || Complete(json, s))
    && (s.main == SendingExit || (s.main == Over && s.alive) ==> Complete(json, s))
  }

  /** The longest packet. */
  const PACKET := 8 + MAX_JSON + BUFFER

  lemma {:induction false} DataPush(json: Json, ps: seq<Packet>, p: Packet, stderr: bool)
    ensures Data(json, ps + [p], stderr) ==
            Data(json, ps, stderr) + if json.dec(p.js) == Some(Output(stderr)) then p.data else []
  {
    assert (ps + [p])[..|ps|] == ps;
  }

  lemma {:induction false} LogPush(json: Json, ps: seq<Packet>, p: Packet)
    ensures CodedAll(ps + [p]) == CodedAll(ps) + Coded(p)
    ensures AllFit(ps) && Fits(p) ==> AllFit(ps + [p])
    ensures NoExit(json, ps) && !IsExit(json, p) ==> NoExit(json, ps + [p])
  {
    assert (ps + [p])[..|ps|] == ps;
  }

  lemma {:induction false} PipeConserves(json: Json, s: State, e: Event, y: bool)
    requires Conserved(json, s, y) && Enabled(s, e) && (e.ReadChunk? || e.Eof?)
    ensures Conserved(json, Next(json, s, e), y)
    ensures Total(PipeOf(Next(json, s, e), y)) == Total(PipeOf(s, y))
  {
    if e.stderr == y {
      var p := PipeOf(s, y);
      if e.ReadChunk? {
        Chunked(p.read, p.left, e.n);
      }
      NothingAdded(Data(json, s.log, y));
    }
  }

  lemma {:induction false} Chunked(read: Bytes, left: Bytes, n: nat)
    requires n <= |left|
    ensures read + left[..n] + left[n..] == read + left
  {
    assert left == left[..n] + left[n..];
  }

  lemma {:induction false} NothingAdded(b: Bytes)
    ensures b + [] == b
  {
  }

  lemma {:induction false} PipePhased(json: Json, s: State, e: Event)
    requires OnWire(s) && Phased(json, s) && Enabled(s, e) && (e.ReadChunk? || e.Eof?)
    ensures OnWire(Next(json, s, e)) && Phased(json, Next(json, s, e))
  {
    var t := Next(json, s, e);
    assert s.main == WaitingForCopiers by {
      assert PipeOf(s, e.stderr).copier == Reading;
    }
    assert t.main == s.main && t.log == s.log && t.lock == s.lock && t.alive == s.alive;
    assert t.wire == s.wire && t.toWrite == s.toWrite;
  }

  /** Reading a chunk, or reaching the end of a pipe. */
  lemma {:induction false} PipeKeepsInv(json: Json, s: State, e: Event)
    requires Inv(json, s) && Enabled(s, e) && (e.ReadChunk? || e.Eof?)
    ensures Inv(json, Next(json, s, e))
    ensures Total(Next(json, s, e).out) == Total(s.out) && Total(Next(json, s, e).err) == Total(s.err)
  {
    PipeConserves(json, s, e, false);
    PipeConserves(json, s, e, true);
    PipePhased(json, s, e);
    assert PipeOf(s, false) == s.out && PipeOf(s, true) == s.err;
  }

  /** When a copier with a chunk takes the lock, nothing is lost of either stream. */
  lemma {:induction false} LockConserves(json: Json, s: State, x: bool, y: bool)
    requires JsonLaws(json) && Conserved(json, s, y) && Enabled(s, LockCopier(x))
    ensures Conserved(json, Next(json, s, LockCopier(x)), y)
  {
    var chunk := PipeOf(s, x).copier.chunk;
    var p := Packet(json.enc(Output(x)), chunk);
    assert Encodes(json, Output(x));
    DataPush(json, s.log, p, y);
    var t, sent := Next(json, s, LockCopier(x)), Data(json, s.log, y);
    if x == y {
      assert PipeOf(t, y) == PipeOf(s, y).(copier := Sending);
      assert Data(json, t.log, y) == sent + chunk;
      NothingAdded(sent + chunk);
    } else {
      assert PipeOf(t, y) == PipeOf(s, y);
      NothingAdded(sent);
    }
  }

  /** A copier with a chunk takes the lock. */
  lemma {:induction false} LockKeepsInv(json: Json, s: State, x: bool)
    requires JsonLaws(json) && Inv(json, s) && Enabled(s, LockCopier(x))
    ensures Inv(json, Next(json, s, LockCopier(x)))
  {
    LockConserves(json, s, x, false);
    LockConserves(json, s, x, true);
    var p := Packet(json.enc(Output(x)), PipeOf(s, x).copier.chunk);
    assert Encodes(json, Output(x));
    LogPush(json, s.log, p);
    assert s.wire + [] == s.wire;
  }

  lemma {:induction false} ExitKeepsInv(json: Json, s: State)
    requires JsonLaws(json) && Inv(json, s) && Enabled(s, LockExit)
    ensures Inv(json, Next(json, s, LockExit))
  {
    var p := Packet(json.enc(Exit(s.code)), []);
    assert Encodes(json, Exit(s.code));
    LogPush(json, s.log, p);
    DataPush(json, s.log, p, false);
    DataPush(json, s.log, p, true);
    assert s.wire + [] == s.wire;
    NothingAdded(Data(json, s.log, false));
    NothingAdded(Data(json, s.log, true));
    assert (s.log + [p])[..|s.log|] == s.log;
  }

  lemma {:induction false} WriteKeepsInv(json: Json, s: State, k: nat)
    requires Inv(json, s) && Enabled(s, WriteSome(k))
    ensures Inv(json, Next(json, s, WriteSome(k)))
  {
    var t := Next(json, s, WriteSome(k));
    Chunked(s.wire, s.toWrite, k);
    assert OnWire(t);
    assert PipeOf(t, false) == PipeOf(s, false) && PipeOf(t, true) == PipeOf(s, true);
  }

  lemma {:induction false} UnlockedPipe(json: Json, s: State, y: bool)
    requires Enabled(s, Unlock)
    ensures var t := Next(json, s, Unlock);
            && t.log == s.log && t.alive == s.alive && t.lock == None
            && PipeOf(t, y) == if s.lock == Some(Copying(y)) then PipeOf(s, y).(copier := Reading) else PipeOf(s, y)
  {
  }

  lemma {:induction false} UnlockConserves(json: Json, s: State, y: bool)
    requires Conserved(json, s, y) && Enabled(s, Unlock)
    ensures Conserved(json, Next(json, s, Unlock), y)
  {
    UnlockedPipe(json, s, y);
    PipeReleased(PipeOf(s, y), Data(json, s.log, y), s.alive, s.lock == Some(Copying(y)));
  }

  lemma {:induction false} PipeReleased(p: Pipe, sent: Bytes, alive: bool, locked: bool)
    requires Balanced(p, sent, alive, locked)
    ensures Balanced(if locked then p.(copier := Reading) else p, sent, alive, false)
  {
  }

  lemma {:induction false} UnlockPhased(json: Json, s: State)
    requires Inv(json, s) && Enabled(s, Unlock)
    ensures Phased(json, Next(json, s, Unlock))
  {
    var t := Next(json, s, Unlock);
    if s.lock == Some(Exiting) {
      assert t.out == s.out && t.err == s.err && t.log == s.log;
    } else {
      assert s.main == t.main == WaitingForCopiers && t.log == s.log;
    }
  }

  lemma {:induction false} UnlockKeepsInv(json: Json, s: State)
    requires Inv(json, s) && Enabled(s, Unlock)
    ensures Inv(json, Next(json, s, Unlock))
  {
    UnlockConserves(json, s, false);
    UnlockConserves(json, s, true);
    UnlockPhased(json, s);
    assert OnWire(Next(json, s, Unlock));
  }

  /** A copier that fails loses what it had, but nothing before that. */
  lemma {:induction false} FailConserves(json: Json, s: State, x: bool, y: bool)
    requires Conserved(json, s, y) && Enabled(s, FailCopier(x))
    ensures Conserved(json, Next(json, s, FailCopier(x)), y)
  {
  }

  lemma {:induction false} FailKeepsInv(json: Json, s: State, x: bool)
    requires Inv(json, s) && Enabled(s, FailCopier(x))
    ensures Inv(json, Next(json, s, FailCopier(x)))
  {
    FailConserves(json, s, x, false);
    FailConserves(json, s, x, true);
    assert OnWire(Next(json, s, FailCopier(x)));
  }

  lemma {:induction false} FailExitKeepsInv(json: Json, s: State)
    requires Inv(json, s) && Enabled(s, FailExit)
    ensures Inv(json, Next(json, s, FailExit))
  {
    var t := Next(json, s, FailExit);
    assert PipeOf(t, false) == PipeOf(s, false) && PipeOf(t, true) == PipeOf(s, true);
    assert Conserved(json, t, false) && Conserved(json, t, true);
  }

  lemma {:induction false} SignalKeepsInv(json: Json, s: State, e: Event)
    requires Inv(json, s) && Enabled(s, e) && (e == HangUp || e == KillSeen)
    ensures Inv(json, Next(json, s, e))
  {
    var t := Next(json, s, e);
    assert PipeOf(t, false) == PipeOf(s, false) && PipeOf(t, true) == PipeOf(s, true);
    assert Conserved(json, t, false) && Conserved(json, t, true);
  }

  lemma {:induction false} DieKeepsInv(json: Json, s: State, k: nat, j: nat, code: int)
    requires Inv(json, s) && Enabled(s, Die(k, j, code))
    ensures Inv(json, Next(json, s, Die(k, j, code)))
  {
    var t := Next(json, s, Die(k, j, code));
    assert Conserved(json, t, false) && Conserved(json, t, true);
    CompleteLeft(json, s);
    assert Complete(json, s) ==> Complete(json, t);
  }

  lemma {:induction false} CompleteLeft(json: Json, s: State)
    requires Conserved(json, s, false) && Conserved(json, s, true)
    ensures Complete(json, s) ==> s.out.left == [] && s.err.left == []
  {
    if Complete(json, s) {
      assert |Data(json, s.log, false)| == |s.out.read| + |s.out.left|;
      assert |Data(json, s.log, true)| == |s.err.read| + |s.err.left|;
    }
  }

  lemma {:induction false} StepKeepsInv(json: Json, s: State, e: Event)
    requires JsonLaws(json) && Inv(json, s) && Enabled(s, e)
    ensures Inv(json, Next(json, s, e))
  {
    match e
    case ReadChunk(_, _) => PipeKeepsInv(json, s, e);
    case Eof(_) => PipeKeepsInv(json, s, e);
    case LockCopier(x) => LockKeepsInv(json, s, x);
    case LockExit => ExitKeepsInv(json, s);
    case WriteSome(k) => WriteKeepsInv(json, s, k);
    case Unlock => UnlockKeepsInv(json, s);
    case FailCopier(x) => FailKeepsInv(json, s, x);
    case FailExit => FailExitKeepsInv(json, s);
    case HangUp => SignalKeepsInv(json, s, e);
    case KillSeen => SignalKeepsInv(json, s, e);
    case Die(k, j, code) => DieKeepsInv(json, s, k, j, code);
  }

  lemma {:induction false} StepKeepsWritten(json: Json, s: State, e: Event, out: Bytes, err: Bytes, code: int)
    requires Inv(json, s) && Enabled(s, e) && Written(s, out, err, code)
    ensures Written(Next(json, s, e), out, err, code)
  {
    if e.ReadChunk? || e.Eof? {
      PipeKeepsInv(json, s, e);
    } else if e.Die? {
      CutShorter(s.out, e.k);
      CutShorter(s.err, e.j);
    }
  }

  lemma {:induction false} CutShorter(p: Pipe, k: nat)
    requires k <= |p.left|
    ensures p.read + p.left[..k] <= Total(p)
  {
    Chunked(p.read, p.left, k);
  }

  /** The state after a sequence of steps, if they can be taken. */
  function After(json: Json, s: State, es: seq<Event>): Option<State> {
    if es == [] then Some(s)
    else
      var r := After(json, s, es[..|es| - 1]);
      if r.Some? && Enabled(r.value, es[|es| - 1]) then Some(Next(json, r.value, es[|es| - 1])) else None
  }

  lemma {:induction false} RunKeepsInv(json: Json, out: Bytes, err: Bytes, code: int, es: seq<Event>)
    requires JsonLaws(json) && After(json, Begin(out, err, code), es).Some?
    ensures Inv(json, After(json, Begin(out, err, code), es).value)
    ensures Written(After(json, Begin(out, err, code), es).value, out, err, code)
  {
    if es == [] {
      assert [] + out == out && [] + err == err;
    } else {
      var s, e := After(json, Begin(out, err, code), es[..|es| - 1]).value, es[|es| - 1];
      RunKeepsInv(json, out, err, code, es[..|es| - 1]);
      StepKeepsInv(json, s, e);
      StepKeepsWritten(json, s, e, out, err, code);
    }
  }

  // ----- who is killed -----

  /** A Kill request, or the end of the requests, before the command is over; or output that
      cannot be written. */
  predicate Kills(s: State, e: Event) {
    Enabled(s, e) && ((e == KillSeen && s.main == WaitingForCopiers) || e.FailCopier?)
  }

  /** One of these is among the steps. */
  predicate SomeKill(json: Json, s: State, es: seq<Event>)
    requires After(json, s, es).Some?
  {
    es != [] && (SomeKill(json, s, es[..|es| - 1]) || Kills(After(json, s, es[..|es| - 1]).value, es[|es| - 1]))
  }

  /** In any run the command is killed exactly when one of these has happened. */
  lemma {:induction false} KilledIff(json: Json, out: Bytes, err: Bytes, code: int, es: seq<Event>)
    requires After(json, Begin(out, err, code), es).Some?
    ensures After(json, Begin(out, err, code), es).value.killed <==> SomeKill(json, Begin(out, err, code), es)
  {
    if es != [] {
      var init := es[..|es| - 1];
      KilledIff(json, out, err, code, init);
      KilledBy(json, After(json, Begin(out, err, code), init).value, es[|es| - 1]);
    }
  }

  lemma {:induction false} KilledBy(json: Json, s: State, e: Event)
    requires Enabled(s, e)
    ensures Next(json, s, e).killed <==> s.killed || Kills(s, e)
  {
  }

  // ----- every run ends -----

  /** What others do, not the server's goroutines. */
  predicate Outside(e: Event) {
    e == HangUp || e == KillSeen || e.Die?
  }

  /** Until the server is done, some goroutine can go on. */
  lemma {:induction false} NeverStuck(json: Json, s: State) returns (e: Event)
    requires Inv(json, s) && s.main != Over
    ensures Enabled(s, e) && !Outside(e)
  {
    if s.lock.Some? {
      if s.toWrite == [] {
        e := Unlock;
      } else if s.alive {
        e := WriteSome(|s.toWrite|);
      } else {
        e := if s.lock.value.Exiting? then FailExit else FailCopier(s.lock.value.stderr);
      }
    } else if s.out.copier != Ended || s.err.copier != Ended {
      e := CopierGoesOn(s, s.out.copier == Ended);
    } else {
      e := if s.alive then LockExit else FailExit;
    }
  }

  lemma {:induction false} CopierGoesOn(s: State, x: bool) returns (e: Event)
    requires s.lock == None && PipeOf(s, x).copier != Ended && PipeOf(s, x).copier != Sending
    ensures Enabled(s, e) && !Outside(e)
  {
    var p := PipeOf(s, x);
    if p.copier.Holding? {
      e := if s.alive then LockCopier(x) else FailCopier(x);
    } else {
      e := if p.left == [] then Eof(x) else ReadChunk(x, Min(|p.left|, BUFFER));
    }
  }

  const STAGE := 4 + PACKET

  function PipeSteps(p: Pipe): nat {
    STAGE * |p.left|
    + (match p.copier { case Ended => 0 case Reading => 1 case Sending => 2 case Holding(_) => STAGE - 1 })
  }

  /** More than the steps still to come. */
  function Steps(s: State): nat {
    PipeSteps(s.out) + PipeSteps(s.err) + |s.toWrite|
    + (match s.main { case Over => 0 case SendingExit => 2 case WaitingForCopiers => STAGE - 1 })
    + (if s.alive then 1 else 0) + (if s.watched then 1 else 0) + (if s.dead then 0 else 1)
  }

  lemma {:induction false} StepsDrop(json: Json, s: State, e: Event)
    requires JsonLaws(json) && Inv(json, s) && Enabled(s, e)
    ensures Steps(Next(json, s, e)) < Steps(s)
  {
    match e
    case LockCopier(x) => LockDrops(json, s, x);
    case LockExit => ExitDrops(json, s);
    case ReadChunk(x, _) => CopierDrops(json, s, e, x);
    case Eof(x) => CopierDrops(json, s, e, x);
    case FailCopier(x) => CopierDrops(json, s, e, x);
    case Unlock => UnlockDrops(json, s);
    case Die(k, j, code) => DieDrops(json, s, k, j, code);
    case _ => OtherDrops(json, s, e);
  }

  lemma {:induction false} OtherDrops(json: Json, s: State, e: Event)
    requires Enabled(s, e) && (e.WriteSome? || e == FailExit || e == HangUp || e == KillSeen)
    ensures Steps(Next(json, s, e)) < Steps(s)
  {
    var t := Next(json, s, e);
    assert PipeSteps(t.out) == PipeSteps(s.out) && PipeSteps(t.err) == PipeSteps(s.err);
  }

  lemma {:induction false} ExitDrops(json: Json, s: State)
    requires JsonLaws(json) && Enabled(s, LockExit)
    ensures Steps(Next(json, s, LockExit)) < Steps(s)
  {
    assert Encodes(json, Exit(s.code));
    assert |Next(json, s, LockExit).toWrite| <= 8 + MAX_JSON;
  }

  lemma {:induction false} CopierDrops(json: Json, s: State, e: Event, x: bool)
    requires Conserved(json, s, x) && Enabled(s, e)
    requires e == Eof(x) || e == FailCopier(x) || (e.ReadChunk? && e.stderr == x)
    ensures Steps(Next(json, s, e)) < Steps(s)
  {
    PipeStepsDrop(json, s, e, x);
  }

  lemma {:induction false} DieDrops(json: Json, s: State, k: nat, j: nat, code: int)
    requires Enabled(s, Die(k, j, code))
    ensures Steps(Next(json, s, Die(k, j, code))) < Steps(s)
  {
    var t := Next(json, s, Die(k, j, code));
    assert |t.out.left| <= |s.out.left| && |t.err.left| <= |s.err.left|;
    assert PipeSteps(t.out) <= PipeSteps(s.out) && PipeSteps(t.err) <= PipeSteps(s.err);
  }

  lemma {:induction false} LockDrops(json: Json, s: State, x: bool)
    requires JsonLaws(json) && Inv(json, s) && Enabled(s, LockCopier(x))
    ensures Steps(Next(json, s, LockCopier(x))) < Steps(s)
  {
    assert Encodes(json, Output(x));
    PipeStepsDrop(json, s, LockCopier(x), x);
    assert |Next(json, s, LockCopier(x)).toWrite| <= PACKET;
  }

  /** What a copier does leaves the other one alone, and leads on. */
  lemma {:induction false} PipeStepsDrop(json: Json, s: State, e: Event, x: bool)
    requires Enabled(s, e)
    requires e == LockCopier(x) || e == Eof(x) || e == FailCopier(x) || (e.ReadChunk? && e.stderr == x)
    requires Conserved(json, s, x)
    ensures var t := Next(json, s, e);
            && PipeOf(t, !x) == PipeOf(s, !x)
            && PipeSteps(PipeOf(t, x)) < PipeSteps(PipeOf(s, x))
            && (e == LockCopier(x) ==> PipeSteps(PipeOf(t, x)) + STAGE - 3 <= PipeSteps(PipeOf(s, x)))
  {
  }

  lemma {:induction false} UnlockDrops(json: Json, s: State)
    requires Inv(json, s) && Enabled(s, Unlock)
    ensures Steps(Next(json, s, Unlock)) < Steps(s)
  {
    if s.lock.value.Copying? {
      var x := s.lock.value.stderr;
      assert PipeOf(s, x).copier == Sending;
    }
  }

  // ----- the client -----

  /** The packets in a part of what was written are the first ones. */
  lemma {:induction false} PartParses(ps: seq<Packet>, bs: Bytes)
    requires AllFit(ps) && bs <= CodedAll(ps)
    ensures ParseAll(bs) <= ps
    ensures |bs| == |CodedAll(ps)| ==> ParseAll(bs) == ps
  {
    if ps != [] {
      var init, p := ps[..|ps| - 1], ps[|ps| - 1];
      assert init + [p] == ps;
      if |bs| < |CodedAll(init)| {
        EarlierPart(CodedAll(init), Coded(p), bs);
        PartParses(init, bs);
      } else {
        PartWithLast(init, p, bs);
      }
    }
  }

  lemma {:induction false} PartWithLast(init: seq<Packet>, p: Packet, bs: Bytes)
    requires AllFit(init) && Fits(p) && bs <= CodedAll(init) + Coded(p) && |bs| >= |CodedAll(init)|
    ensures ParseAll(bs) == if |bs| < |CodedAll(init) + Coded(p)| then init else init + [p]
  {
    LaterPart(CodedAll(init), Coded(p), bs);
    LaterParses(init, p, |bs| - |CodedAll(init)|);
  }

  lemma {:induction false} LaterParses(init: seq<Packet>, p: Packet, k: nat)
    requires AllFit(init) && Fits(p) && k <= |Coded(p)|
    ensures ParseAll(CodedAll(init) + Coded(p)[..k]) == if k < |Coded(p)| then init else init + [p]
  {
    ParseSeveral(init, Coded(p)[..k]);
    LastPart(p, k);
    assert init + [] == init;
  }

  lemma {:induction false} EarlierPart(a: Bytes, b: Bytes, bs: Bytes)
    requires bs <= a + b && |bs| < |a|
    ensures bs <= a
  {
  }

  lemma {:induction false} LaterPart(a: Bytes, b: Bytes, bs: Bytes)
    requires bs <= a + b && |bs| >= |a|
    ensures bs == a + b[..|bs| - |a|]
  {
  }

  lemma {:induction false} LastPart(p: Packet, k: nat)
    requires Fits(p) && k <= |Coded(p)|
    ensures ParseAll(Coded(p)[..k]) == if k < |Coded(p)| then [] else [p]
  {
    if k < |Coded(p)| {
      CutShort(p, k);
    } else {
      PacketRoundTrip(p, []);
      assert Coded(p)[..k] == Coded(p) + [];
      assert ParseAll(Coded(p) + []) == [p] + ParseAll([]);
    }
  }

  lemma {:induction false} DataPrefix(json: Json, qs: seq<Packet>, ps: seq<Packet>, stderr: bool)
    requires qs <= ps
    ensures Data(json, qs, stderr) <= Data(json, ps, stderr)
  {
    if |qs| < |ps| {
      DataPrefix(json, qs, ps[..|ps| - 1], stderr);
    } else {
      assert qs == ps;
    }
  }

  /** What the client has written and whether it has seen the exit, after some packets. */
  datatype Seen = Seen(stdout: Bytes, stderr: Bytes, code: Option<int>)

  method Receive(json: Json, ps: seq<Packet>) returns (r: Seen)
    requires forall k :: 0 <= k < |ps| ==> json.dec(ps[k].js).Some?
    requires NoExit(json, if ps == [] then [] else ps[..|ps| - 1])
    ensures r.stdout == Data(json, ps, false) && r.stderr == Data(json, ps, true)
    ensures r.code.Some? <==> ps != [] && IsExit(json, ps[|ps| - 1])
    ensures r.code.Some? ==> ExitsWith(json, ps[|ps| - 1], r.code.value)
  {
    r := Seen([], [], None);
    for k := 0 to |ps|
      invariant r == Seen(Data(json, ps[..k], false), Data(json, ps[..k], true), None)
      invariant NoExit(json, ps[..k])
    {
      assert ps[..k + 1][..k] == ps[..k];
      match json.dec(ps[k].js).value {
        case Output(x) =>
          if x {
            r := r.(stderr := r.stderr + ps[k].data);
          } else {
            r := r.(stdout := r.stdout + ps[k].data);
          }
        case Exit(code) =>
          assert k == |ps| - 1;
          assert ps[..k + 1] == ps;
          r := r.(code := Some(code));
          return;
      }
    }
    assert ps[..|ps|] == ps;
  }

  /** Main result: after any interleaving of the server's goroutines with hang-ups, Kill
      requests and failing writes, whatever part of the bytes has arrived, the client has each
      output in order, as far as it goes; and when it has the exit status, it is the command's,
      and it has it last and after all that the command wrote. Unless the command was killed,
      outputs and status are what they would have been anyway. */
  lemma {:induction false} OutputInOrder(json: Json, out: Bytes, err: Bytes, code: int, es: seq<Event>, arrived: Bytes)
    requires JsonLaws(json) && After(json, Begin(out, err, code), es).Some?
    requires arrived <= After(json, Begin(out, err, code), es).value.wire
    ensures var ps, s := ParseAll(arrived), After(json, Begin(out, err, code), es).value;
            && Data(json, ps, false) <= Total(s.out) <= out && Data(json, ps, true) <= Total(s.err) <= err
            && (!s.killed ==> Total(s.out) == out && Total(s.err) == err && s.code == code)
            && (forall k :: 0 <= k < |ps| && IsExit(json, ps[k]) ==>
                  && k == |ps| - 1 && ExitsWith(json, ps[k], s.code)
                  && Data(json, ps, false) == Total(s.out) && Data(json, ps, true) == Total(s.err))
  {
    var s := After(json, Begin(out, err, code), es).value;
    RunKeepsInv(json, out, err, code, es);
    assert arrived <= CodedAll(s.log);
    PartParses(s.log, arrived);
    var ps := ParseAll(arrived);
    SentSoFar(json, s, ps);
    forall k | 0 <= k < |ps| && IsExit(json, ps[k])
      ensures k == |ps| - 1 && ExitsWith(json, ps[k], s.code)
      ensures Data(json, ps, false) == Total(s.out) && Data(json, ps, true) == Total(s.err)
    {
      ExitMeansAll(json, s, ps, k);
    }
  }

  lemma {:induction false} SentSoFar(json: Json, s: State, ps: seq<Packet>)
    requires Inv(json, s) && ps <= s.log
    ensures Data(json, ps, false) <= Total(s.out) && Data(json, ps, true) <= Total(s.err)
  {
    DataPrefix(json, ps, s.log, false);
    DataPrefix(json, ps, s.log, true);
  }

  /** Once the exit status is there, so is everything else. */
  lemma {:induction false} ExitMeansAll(json: Json, s: State, ps: seq<Packet>, k: nat)
    requires Inv(json, s) && ps <= s.log && k < |ps| && IsExit(json, ps[k])
    ensures k == |ps| - 1 && ExitsWith(json, ps[k], s.code)
    ensures Data(json, ps, false) == Total(s.out) && Data(json, ps, true) == Total(s.err)
  {
    assert ps[k] == s.log[k];
    LastOne(json, s, k);
    assert ps == s.log;
  }

  lemma {:induction false} LastOne(json: Json, s: State, k: nat)
    requires k < |s.log| && IsExit(json, s.log[k])
    requires NoExit(json, s.log) || Complete(json, s)
    ensures Complete(json, s) && k == |s.log| - 1
  {
    assert s.log != [] ==> forall j :: 0 <= j < |s.log| - 1 ==> s.log[..|s.log| - 1][j] == s.log[j];
  }

  /** Every run is finite; one that cannot go on is over; and then, unless the client has hung
      up, the bytes written end with the exit status. */
  lemma {:induction false} Concludes(json: Json, out: Bytes, err: Bytes, code: int, es: seq<Event>)
    requires JsonLaws(json) && After(json, Begin(out, err, code), es).Some?
    ensures |es| <= Steps(Begin(out, err, code))
    ensures var s := After(json, Begin(out, err, code), es).value;
            && ((forall e :: Enabled(s, e) ==> Outside(e)) ==> s.main == Over)
            && (s.main == Over && s.alive ==>
                  ParseAll(s.wire) == s.log && s.log != [] && ExitsWith(json, s.log[|s.log| - 1], s.code))
  {
    var s := After(json, Begin(out, err, code), es).value;
    RunShort(json, out, err, code, es);
    RunKeepsInv(json, out, err, code, es);
    if s.main != Over {
      var e := NeverStuck(json, s);
    } else if s.alive {
      AllArrives(json, s);
    }
  }

  lemma {:induction false} NobodyWrites(json: Json, s: State)
    requires Inv(json, s) && s.main == Over
    ensures s.lock == None
  {
    match s.lock
    case None =>
    case Some(who) =>
      match who {
        case Exiting => assert false;
        case Copying(x) =>
          if x {
            assert false;
          } else {
            assert false;
          }
      }
  }

  lemma {:induction false} AllArrives(json: Json, s: State)
    requires Inv(json, s) && s.main == Over && s.alive
    ensures ParseAll(s.wire) == s.log && s.log != [] && ExitsWith(json, s.log[|s.log| - 1], s.code)
  {
    NobodyWrites(json, s);
    NothingAdded(s.wire);
    PartParses(s.log, s.wire);
  }

  lemma {:induction false} RunShort(json: Json, out: Bytes, err: Bytes, code: int, es: seq<Event>)
    requires JsonLaws(json) && After(json, Begin(out, err, code), es).Some?
    ensures |es| + Steps(After(json, Begin(out, err, code), es).value) <= Steps(Begin(out, err, code))
  {
    if es != [] {
      var init := es[..|es| - 1];
      RunShort(json, out, err, code, init);
      RunKeepsInv(json, out, err, code, init);
      StepsDrop(json, After(json, Begin(out, err, code), init).value, es[|es| - 1]);
    }
  }
}
