/** The bridge of scripts/phd2_web_ui_server.py as a transition system.

    Every thread has a program counter; every lock-protected block, queue operation, read or write of
    a shared variable and socket operation is one step. The server is the environment: it may send
    any line at any time. Publishing events never blocks and touches nothing below, so it is no step
    here (see EventFanout). */
module BridgeMachine {
  import opened Wrappers
  import opened JsonRpc
  import Runs

  /** How a call ends. */
  datatype Exit = Refused | Answered(msg: Json) | TimedOut | Aborted

  datatype CallerPc =
    | CheckRunning       // 121, first test
    | CheckFile          // 121, second test
    | TakeId             // 115-117
    | Register           // 130-131
    | Send               // 134-135
    | Wait               // 136
    | Unregister(how: Exit)  // 140-141
    | Done(how: Exit)

  /** One activation of `call`, with its one-slot response queue. */
  datatype Call = Call(pc: CallerPc, id: int, slot: Option<Json>)

  const FRESH_CALL := Call(CheckRunning, 0, None)

  datatype ReaderPc =
    | ReadRunning        // 89, first test
    | ReadFile           // 89, second test
    | LoadFile           // 90, fetching self._file
    | ReadLine           // 90, blocked in readline
    | Lookup(msg: Json)  // 101-102
    | Put(call: nat, msg: Json)  // 104
    | ClearRunning       // 111
    | DropFile           // 57
    | DropSock           // 60
    | Dead

  datatype ConnectorPc =
    | TestDesired        // 77
    | TestRunning        // 78
    | Lock               // 63
    | Recheck            // 64
    | Open               // 66
    | SetSock(conn: nat) // 68
    | SetFile(conn: nat) // 69
    | SetRunning         // 70
    | Spawn              // 71-72
    | Leaving            // the loop is over, the thread still alive
    | Exited

  datatype OwnerPc = Idle | StartSpawn | StopClear | StopDropFile | StopDropSock

  datatype State = State(
    running: bool, desired: bool, sock: Option<nat>, file: Option<nat>,
    nextId: int, pending: map<int, nat>,
    owner: OwnerPc, connectors: seq<ConnectorPc>, readers: seq<ReaderPc>, calls: seq<Call>,
    // What happened so far; no step depends on it.
    connections: nat, sent: set<int>, stream: seq<Line>, overlap: bool)

  datatype Input = Got(line: Line) | Eof
  datatype Choice = Go | Expire | Fail
  datatype Action =
    | Owner(start: bool)
    | Connector(c: nat, opens: bool)
    | Reader(r: nat, input: Input)
    | NewCall
    | Caller(i: nat, choice: Choice)

  const INIT := State(false, false, None, None, 1, map[], Idle, [], [], [], 0, {}, [], false)

  // Holding the connection lock.
  predicate Critical(pc: ConnectorPc) {
    pc.Recheck? || pc.Open? || pc.SetSock? || pc.SetFile? || pc.SetRunning? || pc.Spawn?
  }

  // Between line 68 and line 72: some of the connection's variables are set, not all.
  predicate Establishing(pc: ConnectorPc) {
    pc.SetFile? || pc.SetRunning? || pc.Spawn?
  }

  // Between clearing `_running` and the end of `_close_socket`.
  predicate OwnerClosing(pc: OwnerPc) { pc.StopDropFile? || pc.StopDropSock? }
  predicate ReaderClosing(pc: ReaderPc) { pc.DropFile? || pc.DropSock? }

  predicate SomeEstablishing(s: State) {
    exists c :: 0 <= c < |s.connectors| && Establishing(s.connectors[c])
  }

  predicate SomeClosing(s: State) {
    OwnerClosing(s.owner) || exists r :: 0 <= r < |s.readers| && ReaderClosing(s.readers[r])
  }

  predicate Enabled(s: State, a: Action) {
    match a
    case Owner(_) => true
    case Connector(c, _) =>
      && c < |s.connectors| && !s.connectors[c].Exited?
      && (s.connectors[c].Lock? ==> forall d :: 0 <= d < |s.connectors| ==> !Critical(s.connectors[d]))
    case Reader(r, _) =>
      && r < |s.readers| && !s.readers[r].Dead?
      // `put` blocks while the one-slot queue is full.
      && (s.readers[r].Put? ==> s.readers[r].call < |s.calls| && s.calls[s.readers[r].call].slot.None?)
    case NewCall => true
    case Caller(i, choice) =>
      && i < |s.calls| && !s.calls[i].pc.Done?
      && (s.calls[i].pc.Send? && choice.Go? ==> s.file.Some?)
      && (s.calls[i].pc.Wait? && choice.Go? ==> s.calls[i].slot.Some?)
      && (choice.Expire? ==> s.calls[i].pc.Wait? && s.calls[i].slot.None?)
      && (choice.Fail? ==> s.calls[i].pc.Send? || s.calls[i].pc.Wait?)
  }

  // ---------- where a thread goes next, and what its step does to the variables ----------

  function AfterOwner(pc: OwnerPc, start: bool): OwnerPc {
    match pc
    case Idle => if start then StartSpawn else StopClear
    case StartSpawn => Idle
    case StopClear => StopDropFile
    case StopDropFile => StopDropSock
    case StopDropSock => Idle
  }

  // `_connector_thread` is unset, or its thread is not alive.
  predicate NoConnector(s: State) {
    s.connectors == [] || s.connectors[|s.connectors| - 1].Exited?
  }

  /** The steps of `start` (39-44) and `stop` (46-49). */
  function OwnerStep(s: State, start: bool): State {
    var pc := s.owner;
    s.(owner := AfterOwner(pc, start),
       desired := if pc.Idle? then start else s.desired,
       connectors := if pc.StartSpawn? && NoConnector(s) then s.connectors + [TestDesired] else s.connectors,
       running := s.running && !pc.StopClear?,
       file := if pc.StopDropFile? then None else s.file,
       sock := if pc.StopDropSock? then None else s.sock)
  }

  function AfterConnector(s: State, pc: ConnectorPc, opens: bool): ConnectorPc {
    match pc
    case TestDesired => if s.desired then TestRunning else Leaving
    case TestRunning => if s.running then TestDesired else Lock
    case Lock => Recheck
    case Recheck => if s.running then TestDesired else Open
    case Open => if opens then SetSock(s.connections) else TestDesired
    case SetSock(k) => SetFile(k)
    case SetFile(_) => SetRunning
    case SetRunning => Spawn
    case Spawn => TestDesired
    case Leaving => Exited
    case Exited => Exited
  }

  /** The steps of `_connector_loop` (76-85) and `_connect_once` (62-74). */
  function ConnectorStep(s: State, c: nat, opens: bool): State
    requires c < |s.connectors|
  {
    var pc := s.connectors[c];
    s.(connectors := s.connectors[c := AfterConnector(s, pc, opens)],
       connections := if pc.Open? && opens then s.connections + 1 else s.connections,
       sock := if pc.SetSock? then Some(pc.conn) else s.sock,
       file := if pc.SetFile? then Some(pc.conn) else s.file,
       running := s.running || pc.SetRunning?,
       readers := if pc.Spawn? then s.readers + [ReadRunning] else s.readers)
  }

  // The message asks to be looked up.
  predicate HasReplyId(line: Line) { line.Parsed? && line.msg.Object? && line.msg.id.Some? }

  // Looking it up raises TypeError.
  predicate Unhashable(m: Json) { m.Object? && m.id == Some(Nested) }

  function AfterReader(s: State, pc: ReaderPc, input: Input): ReaderPc {
    match pc
    case ReadRunning => if s.running then ReadFile else Dead
    case ReadFile => if s.file.Some? then LoadFile else Dead
    case LoadFile => if s.file.Some? then ReadLine else ClearRunning
    case ReadLine =>
      if input.Eof? then ClearRunning
      else if HasReplyId(input.line) then Lookup(input.line.msg) else ReadRunning
    case Lookup(m) =>
      if Unhashable(m) then ClearRunning
      else if Key(m).Some? && Key(m).value in s.pending then Put(s.pending[Key(m).value], m) else ReadRunning
    case Put(_, _) => ReadRunning
    case ClearRunning => DropFile
    case DropFile => DropSock
    case DropSock => Dead
    case Dead => Dead
  }

  /** The steps of `_reader_loop` (87-112). */
  function ReaderStep(s: State, r: nat, input: Input): State
    requires Enabled(s, Reader(r, input))
  {
    var pc := s.readers[r];
    s.(readers := s.readers[r := AfterReader(s, pc, input)],
       stream := if pc.ReadLine? && input.Got? then s.stream + [input.line] else s.stream,
       calls := if pc.Put? then s.calls[pc.call := s.calls[pc.call].(slot := Some(pc.msg))] else s.calls,
       running := s.running && !pc.ClearRunning?,
       file := if pc.DropFile? then None else s.file,
       sock := if pc.DropSock? then None else s.sock)
  }

  // s with reader r somewhere else.
  function WithReader(s: State, r: nat, pc: ReaderPc): State
    requires r < |s.readers|
  {
    s.(readers := s.readers[r := pc])
  }

  function AfterCaller(s: State, c: Call, choice: Choice): CallerPc
    requires c.pc.Wait? && choice.Go? ==> c.slot.Some?
  {
    match c.pc
    case CheckRunning => if s.running then CheckFile else Done(Refused)
    case CheckFile => if s.file.Some? then TakeId else Done(Refused)
    case TakeId => Register
    case Register => Send
    case Send => if choice.Go? then Wait else Unregister(Aborted)
    case Wait => Unregister(if choice.Go? then Answered(c.slot.value) else if choice.Expire? then TimedOut else Aborted)
    case Unregister(how) => Done(how)
    case Done(_) => c.pc
  }

  /** The steps of `call` (120-149). */
  function CallerStep(s: State, i: nat, choice: Choice): State
    requires Enabled(s, Caller(i, choice))
  {
    var c, pc := s.calls[i], s.calls[i].pc;
    s.(calls := s.calls[i := Call(AfterCaller(s, c, choice), if pc.TakeId? then s.nextId else c.id,
                                  if pc.Wait? && choice.Go? then None else c.slot)],
       nextId := if pc.TakeId? then s.nextId + 1 else s.nextId,
       pending := if pc.Register? then s.pending[c.id := i]
                  else if pc.Unregister? then s.pending - {c.id} else s.pending,
       sent := if pc.Send? && choice.Go? then s.sent + {c.id} else s.sent)
  }

  function Step(s: State, a: Action): State
    requires Enabled(s, a)
  {
    match a
    case Owner(start) => OwnerStep(s, start)
    case Connector(c, opens) => ConnectorStep(s, c, opens)
    case Reader(r, input) => ReaderStep(s, r, input)
    case NewCall => s.(calls := s.calls + [FRESH_CALL])
    case Caller(i, choice) => CallerStep(s, i, choice)
  }

  /** One step, with the note whether a connection was being set up while another was being closed. */
  function Apply(s: State, a: Action): State
    requires Enabled(s, a)
  {
    var t := Step(s, a);
    t.(overlap := s.overlap || (SomeEstablishing(t) && SomeClosing(t)))
  }

  // ---------- runs ----------

  /** The actions `acts` lead from s to t, each one enabled and permitted by `ok` where it is taken. */
  ghost predicate Reaches(ok: (State, Action) -> bool, s: State, acts: seq<Action>, t: State)
    decreases |acts|
  {
    if acts == [] then s == t
    else Enabled(s, acts[0]) && ok(s, acts[0]) && Reaches(ok, Apply(s, acts[0]), acts[1..], t)
  }

  ghost predicate Anything(s: State, a: Action) { true }

  ghost predicate Keeps(ok: (State, Action) -> bool, inv: State -> bool) {
    forall s, a :: inv(s) && Enabled(s, a) && ok(s, a) ==> inv(Apply(s, a))
  }

  /** What every permitted step keeps holds at the end of every permitted run. */
  lemma {:induction false} KeptOverRuns(ok: (State, Action) -> bool, inv: State -> bool, s: State, acts: seq<Action>,
      t: State)
    requires Keeps(ok, inv) && inv(s) && Reaches(ok, s, acts, t)
    ensures inv(t)
    decreases |acts|
  {
    if acts != [] {
      KeptOverRuns(ok, inv, Apply(s, acts[0]), acts[1..], t);
    }
  }

  lemma ReachesAreRuns(ok: (State, Action) -> bool)
    ensures Runs.AreRuns((x, acts, y) => Reaches(ok, x, acts, y), (x, a) => Enabled(x, a) && ok(x, a), Next)
  {
  }

  // Apply, where it applies.
  ghost function Next(s: State, a: Action): State { if Enabled(s, a) then Apply(s, a) else s }

  /** A run followed by a run is a run. */
  lemma RunsCompose(ok: (State, Action) -> bool, s: State, a1: seq<Action>, m: State, a2: seq<Action>, t: State)
    requires Reaches(ok, s, a1, m) && Reaches(ok, m, a2, t)
    ensures Reaches(ok, s, a1 + a2, t)
  {
    ReachesAreRuns(ok);
    Runs.Compose((x, acts, y) => Reaches(ok, x, acts, y), (x, a) => Enabled(x, a) && ok(x, a), Next, s, a1, m, a2, t);
  }

  ghost predicate Reachable(ok: (State, Action) -> bool, s: State, t: State) {
    exists acts :: Reaches(ok, s, acts, t)
  }

  // What can be reached is kept by every permitted step.
  lemma ReachableKept(ok: (State, Action) -> bool, s: State)
    ensures Keeps(ok, x => Reachable(ok, s, x)) && Reachable(ok, s, s)
  {
    assert Reaches(ok, s, [], s);
    forall x, a | Reachable(ok, s, x) && Enabled(x, a) && ok(x, a) ensures Reachable(ok, s, Apply(x, a)) {
      var acts :| Reaches(ok, s, acts, x);
      assert Reaches(ok, Apply(x, a), [], Apply(x, a)) && [a][1..] == [];
      RunsCompose(ok, s, acts, x, [a], Apply(x, a));
    }
  }

  // Some step of the run from s was as p says.
  ghost predicate Happened(s: State, acts: seq<Action>, p: (State, Action) -> bool)
    decreases |acts|
  {
    acts != [] && Enabled(s, acts[0]) && (p(s, acts[0]) || Happened(Apply(s, acts[0]), acts[1..], p))
  }

  // Only such a step makes f true, and it stays true.
  ghost predicate Causes(inv: State -> bool, p: (State, Action) -> bool, f: State -> bool) {
    forall s, a :: inv(s) && Enabled(s, a) ==> (f(Apply(s, a)) <==> f(s) || p(s, a))
  }

  lemma {:induction false} TrueIffHappened(inv: State -> bool, s: State, acts: seq<Action>, t: State,
                                           p: (State, Action) -> bool, f: State -> bool)
    requires Keeps(Anything, inv) && inv(s) && Reaches(Anything, s, acts, t) && Causes(inv, p, f)
    ensures f(t) <==> f(s) || Happened(s, acts, p)
    decreases |acts|
  {
    if acts != [] {
      TrueIffHappened(inv, Apply(s, acts[0]), acts[1..], t, p, f);
    }
  }

  /** What a stricter assumption permits, no assumption forbids. */
  lemma {:induction false} Relax(ok: (State, Action) -> bool, s: State, acts: seq<Action>, t: State)
    requires Reaches(ok, s, acts, t)
    ensures Reaches(Anything, s, acts, t)
    decreases |acts|
  {
    if acts != [] {
      Relax(ok, Apply(s, acts[0]), acts[1..], t);
    }
  }
}
