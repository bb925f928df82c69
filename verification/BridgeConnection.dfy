/** The life of a connection: `_running`, `_sock` and `_file`, which three kinds of threads set and
    clear without a common lock, and what `start` and `stop` achieve. */
module BridgeConnection {
  import opened Wrappers
  import opened BridgeMachine

  // The newest connector thread; `Exited` when there was none.
  function Newest(connectors: seq<ConnectorPc>): ConnectorPc {
    if connectors == [] then Exited else connectors[|connectors| - 1]
  }

  // `start` creates a thread only when the last one is gone.
  ghost predicate OneConnector(s: State) {
    forall c :: 0 <= c < |s.connectors| - 1 ==> s.connectors[c].Exited?
  }

  // The connector has found `_desired_running` set, and may still open one connection.
  predicate MayOpen(pc: ConnectorPc) { pc.TestRunning? || pc.Lock? || pc.Recheck? || pc.Open? }

  // It will still set one of the shared variables.
  predicate Committed(pc: ConnectorPc) {
    MayOpen(pc) || pc.SetSock? || pc.SetFile? || pc.SetRunning?
  }

  // The first line of `start` is not run.
  ghost predicate NoStart(s: State, a: Action) { !(a.Owner? && a.start && s.owner.Idle?) }

  // The first line of `stop` is not run.
  ghost predicate NoStop(s: State, a: Action) { !(a.Owner? && !a.start && s.owner.Idle?) }

  predicate LastReaderAlive(s: State) {
    s.readers != [] && !s.readers[|s.readers| - 1].Dead?
  }

  predicate Agree(s: State) {
    s.running == s.sock.Some? && s.running == s.file.Some?
  }

  predicate Down(s: State) {
    !s.running && s.sock.None? && s.file.None?
  }

  // Nobody is between clearing `_running` and the end of closing, or between setting `_sock` and
  // starting the reader.
  predicate NobodyMidway(s: State) { !SomeClosing(s) && !SomeEstablishing(s) }

  // Somebody will still clear `_file`.
  predicate SomeDropping(s: State) {
    s.owner.StopDropFile? || exists r :: 0 <= r < |s.readers| && s.readers[r].DropFile?
  }

  lemma NewestEstablishes(s: State)
    requires OneConnector(s)
    ensures SomeEstablishing(s) <==> Establishing(Newest(s.connectors))
  {
    if Establishing(Newest(s.connectors)) {
      assert Establishing(s.connectors[|s.connectors| - 1]);
    }
  }

  lemma StepKeepsOneConnector(s: State, a: Action)
    requires OneConnector(s) && Enabled(s, a)
    ensures OneConnector(Step(s, a))
  {
    match a
    case Owner(start) =>
    case Connector(c, opens) =>
    case Reader(r, input) =>
    case NewCall =>
    case Caller(i, choice) =>
  }

  // ---------- whatever overlaps ----------

  // Only the newest connector sets `_running`, and it spawns a reader right after.
  predicate ReaderLives(s: State, newest: ConnectorPc) {
    && (newest.Open? || newest.SetSock? || newest.SetFile? || newest.SetRunning? ==> !s.running)
    && (s.running && !newest.Spawn? ==> (s.file.Some? ==> LastReaderAlive(s)) && !LastReaderCloses(s))
  }

  predicate LastReaderCloses(s: State) {
    s.readers != [] && ReaderClosing(s.readers[|s.readers| - 1])
  }

  // Who clears `_running` clears the rest behind it.
  predicate WillBeCleared(s: State, newest: ConnectorPc) {
    !s.running ==>
      && (s.file.Some? && !newest.SetRunning? ==> SomeDropping(s))
      && (s.sock.Some? && !newest.SetFile? && !newest.SetRunning? ==> SomeClosing(s))
  }

  // `start` has set `_desired_running`, `stop` has cleared it.
  predicate OwnerDecided(s: State) {
    s.owner.Idle? || s.desired == s.owner.StartSpawn?
  }

  ghost predicate SharedInv(s: State) {
    OwnerDecided(s) && OneConnector(s) && ReaderLives(s, Newest(s.connectors)) && WillBeCleared(s, Newest(s.connectors))
  }

  // Readers that go on closing, and readers that are new.
  lemma ClosingStays(s: State, t: State)
    requires t.owner == s.owner && |s.readers| <= |t.readers|
    requires forall r :: 0 <= r < |s.readers| ==> t.readers[r] == s.readers[r]
    ensures (SomeDropping(s) ==> SomeDropping(t)) && (SomeClosing(s) ==> SomeClosing(t))
  {
    forall r | 0 <= r < |s.readers| && ReaderClosing(s.readers[r]) ensures SomeClosing(t) {
      assert ReaderClosing(t.readers[r]);
    }
    forall r | 0 <= r < |s.readers| && s.readers[r].DropFile? ensures SomeDropping(t) {
      assert t.readers[r].DropFile?;
    }
  }

  lemma OwnerKeepsShared(s: State, start: bool)
    requires SharedInv(s)
    ensures SharedInv(OwnerStep(s, start))
  {
    var t := OwnerStep(s, start);
    StepKeepsOneConnector(s, Owner(start));
    assert t.readers == s.readers;
    assert !s.owner.StopDropFile? && SomeDropping(s) ==> SomeDropping(t);
    assert !OwnerClosing(s.owner) && SomeClosing(s) ==> SomeClosing(t);
  }

  lemma ConnectorKeepsShared(s: State, c: nat, opens: bool)
    requires SharedInv(s) && Enabled(s, Connector(c, opens))
    ensures SharedInv(ConnectorStep(s, c, opens))
  {
    var t := ConnectorStep(s, c, opens);
    StepKeepsOneConnector(s, Connector(c, opens));
    assert c == |s.connectors| - 1;
    ClosingStays(s, t);
  }

  lemma ReaderStillCloses(s: State, r: nat, input: Input)
    requires Enabled(s, Reader(r, input))
    ensures SomeDropping(s) && !s.readers[r].DropFile? ==> SomeDropping(ReaderStep(s, r, input))
    ensures SomeClosing(s) && !s.readers[r].DropSock? ==> SomeClosing(ReaderStep(s, r, input))
  {
    var t := ReaderStep(s, r, input);
    forall q | 0 <= q < |s.readers| && s.readers[q].DropFile? && q != r ensures SomeDropping(t) {
      assert t.readers[q].DropFile?;
    }
    forall q | 0 <= q < |s.readers| && ReaderClosing(s.readers[q]) && !s.readers[r].DropSock? ensures SomeClosing(t) {
      assert ReaderClosing(t.readers[q]);
    }
  }

  lemma ReaderKeepsShared(s: State, r: nat, input: Input)
    requires SharedInv(s) && Enabled(s, Reader(r, input))
    ensures SharedInv(ReaderStep(s, r, input))
  {
    var t := ReaderStep(s, r, input);
    StepKeepsOneConnector(s, Reader(r, input));
    ReaderStillCloses(s, r, input);
    if s.readers[r].ClearRunning? {
      assert t.readers[r].DropFile?;
    }
  }

  lemma SharedStep(s: State, a: Action)
    requires SharedInv(s) && Enabled(s, a)
    ensures SharedInv(Apply(s, a))
  {
    var t := Step(s, a);
    match a {
      case Owner(start) => OwnerKeepsShared(s, start);
      case Connector(c, opens) => ConnectorKeepsShared(s, c, opens);
      case Reader(r, input) => ReaderKeepsShared(s, r, input);
      case NewCall => ClosingStays(s, t);
      case Caller(i, choice) => ClosingStays(s, t);
    }
    ClosingStays(t, Apply(s, a));
  }

  lemma SharedHolds(acts: seq<Action>, t: State)
    requires Reaches(Anything, INIT, acts, t)
    ensures SharedInv(t)
  {
    forall s, a | SharedInv(s) && Enabled(s, a) && Anything(s, a) ensures SharedInv(Apply(s, a)) {
      SharedStep(s, a);
    }
    KeptOverRuns(Anything, SharedInv, INIT, acts, t);
  }

  /** In every reachable state in which nobody is midway, whatever overlapped before: a bridge that is not
      "running" has neither socket nor file, and one that is, with a file, has its latest reader alive. */
  lemma NotRunningMeansDown(acts: seq<Action>, t: State)
    requires Reaches(Anything, INIT, acts, t) && NobodyMidway(t)
    ensures !t.running ==> t.sock.None? && t.file.None?
    ensures t.running && t.file.Some? ==> LastReaderAlive(t)
  {
    SharedHolds(acts, t);
    NewestEstablishes(t);
  }

  // ---------- which connection it is ----------

  // What is set is of the connection opened last, unless the connector is about to replace it.
  predicate Latest(s: State, newest: ConnectorPc) {
    && (newest.SetSock? || newest.SetFile? ==> newest.conn == s.connections - 1)
    && (s.sock.Some? && !newest.SetSock? ==> s.sock == Some(s.connections - 1))
    && (s.file.Some? && !newest.SetSock? && !newest.SetFile? ==> s.file == Some(s.connections - 1))
  }

  ghost predicate LatestInv(s: State) { OneConnector(s) && Latest(s, Newest(s.connectors)) }

  lemma LatestStep(s: State, a: Action)
    requires LatestInv(s) && Enabled(s, a)
    ensures LatestInv(Apply(s, a))
  {
    StepKeepsOneConnector(s, a);
    match a
    case Owner(start) =>
    case Connector(c, opens) => assert c == |s.connectors| - 1;
    case Reader(r, input) =>
    case NewCall =>
    case Caller(i, choice) =>
  }

  /** Over every run: whenever the connector is not between opening a connection and setting `_file`, a
      socket or a file that is set belongs to the connection opened last; the socket does so already from
      the step that sets it. */
  lemma LatestConnection(acts: seq<Action>, t: State)
    requires Reaches(Anything, INIT, acts, t) && !Newest(t.connectors).SetSock?
    ensures t.sock.Some? ==> t.connections > 0 && t.sock == Some(t.connections - 1)
    ensures t.file.Some? && !Newest(t.connectors).SetFile? ==> t.connections > 0 && t.file == Some(t.connections - 1)
  {
    forall s, a | LatestInv(s) && Enabled(s, a) && Anything(s, a) ensures LatestInv(Apply(s, a)) {
      LatestStep(s, a);
    }
    KeptOverRuns(Anything, LatestInv, INIT, acts, t);
  }

  // ---------- nothing overlaps ----------

  // What the connector has set stays set, and who closes has cleared `_running`.
  predicate Solid(s: State, newest: ConnectorPc) {
    && (s.running ==> s.sock.Some? && s.file.Some?)
    && (newest.SetFile? ==> s.sock.Some?)
    && (newest.SetRunning? ==> s.sock.Some? && s.file.Some?)
    && (SomeClosing(s) ==> !s.running && !Establishing(newest))
  }

  ghost predicate ConnectionInv(s: State) {
    SharedInv(s) && (!s.overlap ==> Solid(s, Newest(s.connectors)))
  }

  // A reader that was not closing closes only by clearing `_running`.
  lemma NotYetClosing(s: State, r: nat, input: Input)
    requires Enabled(s, Reader(r, input)) && !SomeClosing(s) && !s.readers[r].ClearRunning?
    ensures !SomeClosing(ReaderStep(s, r, input))
  {
    var t := ReaderStep(s, r, input);
    assert !ReaderClosing(s.readers[r]);
    forall q | 0 <= q < |t.readers| ensures !ReaderClosing(t.readers[q]) {
      assert !ReaderClosing(s.readers[q]);
    }
  }

  lemma SolidStep(s: State, a: Action)
    requires SharedInv(s) && Solid(s, Newest(s.connectors)) && Enabled(s, a)
    requires !(SomeEstablishing(Step(s, a)) && SomeClosing(Step(s, a)))
    ensures Solid(Step(s, a), Newest(Step(s, a).connectors))
  {
    var t := Step(s, a);
    StepKeepsOneConnector(s, a);
    NewestEstablishes(t);
    match a
    case Owner(start) => OwnerStaysSolid(s, start);
    case Connector(c, opens) => ConnectorStaysSolid(s, c, opens);
    case Reader(r, input) => ReaderStaysSolid(s, r, input);
    case NewCall => assert SomeClosing(t) == SomeClosing(s);
    case Caller(i, choice) => assert SomeClosing(t) == SomeClosing(s);
  }

  lemma OwnerStaysSolid(s: State, start: bool)
    requires SharedInv(s) && Solid(s, Newest(s.connectors))
    requires Establishing(Newest(OwnerStep(s, start).connectors)) ==> !SomeClosing(OwnerStep(s, start))
    ensures Solid(OwnerStep(s, start), Newest(OwnerStep(s, start).connectors))
  {
    var t := OwnerStep(s, start);
    var closing := exists r :: 0 <= r < |s.readers| && ReaderClosing(s.readers[r]);
    assert SomeClosing(s) == (OwnerClosing(s.owner) || closing);
    assert SomeClosing(t) == (OwnerClosing(t.owner) || closing);
  }

  lemma ConnectorStaysSolid(s: State, c: nat, opens: bool)
    requires SharedInv(s) && Solid(s, Newest(s.connectors)) && Enabled(s, Connector(c, opens))
    requires Establishing(Newest(ConnectorStep(s, c, opens).connectors)) ==> !SomeClosing(ConnectorStep(s, c, opens))
    ensures Solid(ConnectorStep(s, c, opens), Newest(ConnectorStep(s, c, opens).connectors))
  {
    assert c == |s.connectors| - 1;
    ClosingStays(s, ConnectorStep(s, c, opens));
    NewReaderClosesNothing(s, c, opens);
  }

  lemma NewReaderClosesNothing(s: State, c: nat, opens: bool)
    requires c < |s.connectors|
    ensures SomeClosing(ConnectorStep(s, c, opens)) ==> SomeClosing(s)
  {
    var t := ConnectorStep(s, c, opens);
    if SomeClosing(t) && !OwnerClosing(t.owner) {
      var r :| 0 <= r < |t.readers| && ReaderClosing(t.readers[r]);
      assert t.readers[r] == s.readers[r];
    }
  }

  lemma ReaderStaysSolid(s: State, r: nat, input: Input)
    requires SharedInv(s) && Solid(s, Newest(s.connectors)) && Enabled(s, Reader(r, input))
    requires Establishing(Newest(s.connectors)) ==> !SomeClosing(ReaderStep(s, r, input))
    ensures Solid(ReaderStep(s, r, input), Newest(s.connectors))
  {
    if !SomeClosing(s) {
      assert !ReaderClosing(s.readers[r]);
      if !s.readers[r].ClearRunning? { NotYetClosing(s, r, input); }
    }
  }

  lemma ConnectionHolds(acts: seq<Action>, t: State)
    requires Reaches(Anything, INIT, acts, t)
    ensures ConnectionInv(t)
  {
    forall s, a | ConnectionInv(s) && Enabled(s, a) && Anything(s, a) ensures ConnectionInv(Apply(s, a)) {
      ConnectionStep(s, a);
    }
    KeptOverRuns(Anything, ConnectionInv, INIT, acts, t);
  }

  lemma ConnectionStep(s: State, a: Action)
    requires ConnectionInv(s) && Enabled(s, a)
    ensures ConnectionInv(Apply(s, a))
  {
    var u, t := Step(s, a), Apply(s, a);
    SharedStep(s, a);
    assert SomeClosing(u) == SomeClosing(t) && SomeEstablishing(u) == SomeEstablishing(t);
    if !t.overlap {
      SolidStep(s, a);
    }
  }

  // Unless a connection was being set up while another was being closed, "running" holds exactly when
  // socket and file are both set, and then the reader of the latest connection is alive. (For when it
  // holds at all, see BridgeWedge.)
  lemma RunningMeansConnected(acts: seq<Action>, t: State)
    requires Reaches(Anything, INIT, acts, t) && !t.overlap && NobodyMidway(t)
    ensures Agree(t) && (t.running ==> LastReaderAlive(t))
  {
    ConnectionHolds(acts, t);
    NotRunningMeansDown(acts, t);
  }

  // ---------- closing and establishing as single steps ----------

  datatype Thread = TheOwner | TheConnector(c: nat) | TheReader(r: nat)

  ghost predicate Midway(s: State, x: Thread) {
    match x
    case TheOwner => OwnerClosing(s.owner)
    case TheConnector(c) => c < |s.connectors| && Establishing(s.connectors[c])
    case TheReader(r) => r < |s.readers| && ReaderClosing(s.readers[r])
  }

  ghost predicate Takes(a: Action, x: Thread) {
    match a
    case Owner(_) => x == TheOwner
    case Connector(c, _) => x == TheConnector(c)
    case Reader(r, _) => x == TheReader(r)
    case NewCall => false
    case Caller(_, _) => false
  }

  /** Nobody interrupts a thread that is closing or setting up a connection. */
  ghost predicate Uninterrupted(s: State, a: Action) {
    forall x :: Midway(s, x) ==> Takes(a, x)
  }

  ghost predicate OneMidway(s: State) {
    !s.overlap && forall x, y :: Midway(s, x) && Midway(s, y) ==> x == y
  }

  lemma UninterruptedStep(s: State, a: Action)
    requires OneMidway(s) && Enabled(s, a) && Uninterrupted(s, a)
    ensures OneMidway(Apply(s, a))
  {
    var t := Step(s, a);
    forall x | Midway(t, x) ensures Takes(a, x) {
      OthersStay(s, a, x);
    }
    if SomeEstablishing(t) && SomeClosing(t) {
      var c :| 0 <= c < |t.connectors| && Establishing(t.connectors[c]);
      assert Midway(t, TheConnector(c));
      assert !Midway(t, TheOwner);
      forall r | 0 <= r < |t.readers| ensures !ReaderClosing(t.readers[r]) {
        assert !Midway(t, TheReader(r));
      }
    }
    forall x, y | Midway(Apply(s, a), x) && Midway(Apply(s, a), y) ensures x == y {
      assert Midway(t, x) && Midway(t, y);
    }
  }

  // A thread is midway only if it was before, or took the step itself.
  lemma OthersStay(s: State, a: Action, x: Thread)
    requires Enabled(s, a) && Midway(Step(s, a), x)
    ensures Midway(s, x) || Takes(a, x)
  {
    match a
    case Owner(start) =>
    case Connector(c, opens) =>
    case Reader(r, input) =>
    case NewCall =>
    case Caller(i, choice) =>
  }

  /** With closing and setting up each taken as one step, "running" and the connection agree in every
      reachable state. */
  lemma UninterruptedRunsAgree(acts: seq<Action>, t: State)
    requires Reaches(Uninterrupted, INIT, acts, t)
    ensures !t.overlap
    ensures NobodyMidway(t) ==> Agree(t) && (t.running ==> LastReaderAlive(t))
  {
    forall s, a | OneMidway(s) && Enabled(s, a) && Uninterrupted(s, a) ensures OneMidway(Apply(s, a)) {
      UninterruptedStep(s, a);
    }
    KeptOverRuns(Uninterrupted, OneMidway, INIT, acts, t);
    Relax(Uninterrupted, INIT, acts, t);
    if NobodyMidway(t) {
      RunningMeansConnected(acts, t);
    }
  }
}
