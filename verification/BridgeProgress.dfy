/** What the bridge's threads can bring about from any state of a given kind. Every lemma speaks of some
    set of states that permitted steps do not leave, such as the states reachable from a given one. */
module BridgeProgress {
  import opened Wrappers
  import opened BridgeMachine
  import opened BridgeConnection

  // Nothing is forbidden but steps of the owner and lines from the server.
  ghost predicate Free(ok: (State, Action) -> bool) {
    forall s: State, a: Action :: a.Connector? || a.Caller? || a.NewCall? || (a.Reader? && a.input.Eof?) ==> ok(s, a)
  }

  // The state after one more step.
  lemma Then(ok: (State, Action) -> bool, inv: State -> bool, s: State, a: Action) returns (t: State)
    requires Keeps(ok, inv) && inv(s) && Enabled(s, a) && ok(s, a)
    ensures t == Step(s, a).(overlap := t.overlap) && inv(t)
  {
    t := Apply(s, a);
  }

  // ---------- the connector ----------

  // Left to itself, the connector sets up a connection.
  predicate OnItsWay(s: State) {
    match Newest(s.connectors)
    case TestDesired => s.desired && !s.running
    case Spawn => s.running
    case Leaving => false
    case Exited => false
    case _ => !s.running
  }

  function StepsToReader(pc: ConnectorPc): nat {
    match pc
    case TestDesired => 9
    case TestRunning => 8
    case Lock => 7
    case Recheck => 6
    case Open => 5
    case SetSock(_) => 4
    case SetFile(_) => 3
    case SetRunning => 2
    case Spawn => 1
    case Leaving => 0
    case Exited => 0
  }

  // It has set up a connection since state s, and nothing else has happened.
  ghost predicate HasConnected(s: State, t: State) {
    && s.connectors != []
    && t == s.(running := true, sock := t.sock, file := t.file,
               connectors := s.connectors[|s.connectors| - 1 := TestDesired],
               readers := s.readers + [ReadRunning], connections := t.connections, overlap := t.overlap)
    && (if Newest(s.connectors).SetRunning? || Newest(s.connectors).Spawn? then t.file == s.file else t.file.Some?)
    && t.connections ==
         s.connections + if Newest(s.connectors).TestDesired? || MayOpen(Newest(s.connectors)) then 1 else 0
  }

  // One of its steps, and what follows.
  lemma GoesOn(s: State, u: State)
    requires OneConnector(s) && OnItsWay(s) && s.connectors != []
    requires u == Step(s, Connector(|s.connectors| - 1, true)).(overlap := u.overlap)
    ensures Newest(s.connectors).Spawn? ==> HasConnected(s, u)
    ensures !Newest(s.connectors).Spawn? ==>
              && OneConnector(u) && OnItsWay(u)
              && StepsToReader(Newest(u.connectors)) < StepsToReader(Newest(s.connectors))
              && forall t :: HasConnected(u, t) ==> HasConnected(s, t)
  {
    var c := |s.connectors| - 1;
    assert u.connectors[c := TestDesired] == s.connectors[c := TestDesired];
  }

  lemma {:induction false} Connects(ok: (State, Action) -> bool, inv: State -> bool, s: State) returns (t: State)
    requires Free(ok) && Keeps(ok, inv) && inv(s) && OneConnector(s) && OnItsWay(s)
    ensures inv(t) && HasConnected(s, t)
    decreases StepsToReader(Newest(s.connectors))
  {
    var u := Then(ok, inv, s, Connector(|s.connectors| - 1, true));
    GoesOn(s, u);
    if Newest(s.connectors).Spawn? {
      t := u;
    } else {
      t := Connects(ok, inv, u);
    }
  }

  // ---------- a reader ----------

  // Left to itself, with the stream at its end, the reader closes the connection.
  predicate GivesUp(s: State, pc: ReaderPc) {
    match pc
    case ReadRunning => s.running && s.file.Some?
    case ReadFile => s.file.Some?
    case LoadFile => true
    case ReadLine => true
    case Lookup(m) => Unhashable(m)
    case ClearRunning => true
    case DropFile => !s.running
    case DropSock => !s.running && s.file.None?
    case _ => false
  }

  function StepsToDead(pc: ReaderPc): nat {
    match pc
    case ReadRunning => 7
    case ReadFile => 6
    case LoadFile => 5
    case ReadLine => 4
    case Lookup(_) => 4
    case ClearRunning => 3
    case DropFile => 2
    case DropSock => 1
    case _ => 0
  }

  lemma {:induction false} Closes(ok: (State, Action) -> bool, inv: State -> bool, s: State, r: nat) returns (t: State)
    requires Free(ok) && Keeps(ok, inv) && inv(s) && r < |s.readers| && GivesUp(s, s.readers[r])
    ensures inv(t)
    ensures t == s.(running := false, file := None, sock := None, readers := s.readers[r := Dead], overlap := t.overlap)
    decreases StepsToDead(s.readers[r])
  {
    t := Then(ok, inv, s, Reader(r, Eof));
    if !s.readers[r].DropSock? {
      var u := t;
      t := Closes(ok, inv, u, r);
      assert u.readers[r := Dead] == s.readers[r := Dead];
    }
  }

  // ---------- the owner ----------

  lemma Starts(ok: (State, Action) -> bool, inv: State -> bool, s: State) returns (t: State)
    requires Keeps(ok, inv) && inv(s) && s.owner.Idle? && forall x :: ok(x, Owner(true))
    ensures inv(t)
    ensures t == s.(desired := true, overlap := t.overlap,
                    connectors := if NoConnector(s) then s.connectors + [TestDesired] else s.connectors)
  {
    t := Then(ok, inv, s, Owner(true));
    t := Then(ok, inv, t, Owner(true));
  }

  // The first half of `stop`, 47-48.
  lemma StopsRunning(ok: (State, Action) -> bool, inv: State -> bool, s: State) returns (t: State)
    requires Keeps(ok, inv) && inv(s) && s.owner.Idle? && forall x :: ok(x, Owner(false))
    ensures inv(t)
    ensures t == s.(desired := false, running := false, owner := StopDropFile, overlap := t.overlap)
  {
    t := Then(ok, inv, s, Owner(false));
    t := Then(ok, inv, t, Owner(false));
  }

  // And the second, 49.
  lemma StopsClosing(ok: (State, Action) -> bool, inv: State -> bool, s: State) returns (t: State)
    requires Keeps(ok, inv) && inv(s) && s.owner.StopDropFile? && forall x :: ok(x, Owner(false))
    ensures inv(t)
    ensures t == s.(file := None, sock := None, owner := Idle, overlap := t.overlap)
  {
    t := Then(ok, inv, s, Owner(false));
    t := Then(ok, inv, t, Owner(false));
  }

  lemma Stops(ok: (State, Action) -> bool, inv: State -> bool, s: State) returns (t: State)
    requires Keeps(ok, inv) && inv(s) && s.owner.Idle? && forall x :: ok(x, Owner(false))
    ensures inv(t)
    ensures t == s.(desired := false, running := false, file := None, sock := None, overlap := t.overlap)
  {
    t := StopsRunning(ok, inv, s);
    t := StopsClosing(ok, inv, t);
  }

  // ---------- a call, and the reader that delivers to it ----------

  // Only calls and what belongs to them have changed.
  predicate OnlyCalls(s: State, t: State) {
    t == s.(calls := t.calls, pending := t.pending, sent := t.sent, overlap := t.overlap) && |t.calls| == |s.calls|
  }

  // The call has yet to take what is in its queue.
  predicate WillGet(pc: CallerPc) { pc.Register? || pc.Send? || pc.Wait? }

  lemma {:induction false} Empties(ok: (State, Action) -> bool, inv: State -> bool, s: State, q: nat) returns (t: State)
    requires Free(ok) && Keeps(ok, inv) && inv(s) && s.file.Some?
    requires q < |s.calls| && WillGet(s.calls[q].pc) && s.calls[q].slot.Some?
    ensures inv(t) && OnlyCalls(s, t) && t.calls[q].slot.None?
    decreases if s.calls[q].pc.Register? then 3 else if s.calls[q].pc.Send? then 2 else 1
  {
    t := Then(ok, inv, s, Caller(q, Go));
    if !s.calls[q].pc.Wait? {
      t := Empties(ok, inv, t, q);
    }
  }

  // A reader with a reply for such a call, or for one with an empty queue, gets rid of it.
  lemma Delivers(ok: (State, Action) -> bool, inv: State -> bool, s: State, r: nat) returns (t: State)
    requires Free(ok) && Keeps(ok, inv) && inv(s) && s.file.Some?
    requires r < |s.readers| && s.readers[r].Put? && s.readers[r].call < |s.calls|
    requires s.calls[s.readers[r].call].slot.Some? ==> WillGet(s.calls[s.readers[r].call].pc)
    ensures inv(t) && OnlyCalls(s.(readers := s.readers[r := ReadRunning]), t)
  {
    t := s;
    if s.calls[s.readers[r].call].slot.Some? {
      t := Empties(ok, inv, s, s.readers[r].call);
    }
    t := Then(ok, inv, t, Reader(r, Eof));
  }

  // ---------- getting a file, from any state ----------

  // The calls and the table are as they were, and no reader has moved.
  predicate SameCalls(s: State, t: State) {
    && t.calls == s.calls && t.pending == s.pending && t.nextId == s.nextId
    && |s.readers| <= |t.readers| && forall r :: 0 <= r < |s.readers| ==> t.readers[r] == s.readers[r]
  }

  lemma {:induction false} OwnerIdles(inv: State -> bool, s: State) returns (t: State)
    requires Keeps(Anything, inv) && inv(s) && OneConnector(s)
    ensures inv(t) && OneConnector(t) && t.owner.Idle? && SameCalls(s, t)
    decreases if s.owner.StopClear? then 3 else if s.owner.StopDropFile? then 2 else if s.owner.Idle? then 0 else 1
  {
    t := s;
    if !s.owner.Idle? {
      StepKeepsOneConnector(s, Owner(true));
      t := Then(Anything, inv, s, Owner(true));
      t := OwnerIdles(inv, t);
    }
  }

  // The connector is not about to count the connection as running, nor on its way out.
  predicate Settled(pc: ConnectorPc) { !pc.SetRunning? && !pc.Spawn? && !pc.Leaving? }

  lemma {:induction false} Settles(inv: State -> bool, s: State) returns (t: State)
    requires Keeps(Anything, inv) && inv(s) && OneConnector(s) && s.owner.Idle?
    ensures inv(t) && OneConnector(t) && t.owner.Idle? && SameCalls(s, t) && Settled(Newest(t.connectors))
    decreases StepsToReader(Newest(s.connectors)), Newest(s.connectors).Leaving?
  {
    t := s;
    if !Settled(Newest(s.connectors)) {
      var a := Connector(|s.connectors| - 1, true);
      StepKeepsOneConnector(s, a);
      t := Then(Anything, inv, s, a);
      if s.connectors[|s.connectors| - 1].SetRunning? { t := Settles(inv, t); }
    }
  }

  /** From every state the bridge can be brought to have a file, with no call and no reader moving. */
  lemma GetsFile(inv: State -> bool, s: State) returns (t: State)
    requires Keeps(Anything, inv) && inv(s) && OneConnector(s)
    ensures inv(t) && t.file.Some? && SameCalls(s, t)
  {
    t := OwnerIdles(inv, s);
    t := Settles(inv, t);
    t := Stops(Anything, inv, t);
    t := Starts(Anything, inv, t);
    assert OneConnector(t) && OnItsWay(t);
    t := Connects(Anything, inv, t);
  }
}
