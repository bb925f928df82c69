/** Runs that reach the bad states the other modules characterise. In every one of them the server
    answers only what it was sent. */
module BridgeTraces {
  import opened Wrappers
  import opened JsonRpc
  import opened BridgeMachine
  import opened BridgeDelivery
  import opened BridgeConnection
  import opened BridgeBlocking
  import opened BridgeOwner
  import opened BridgeProgress
  import opened BridgeWedge
  import BridgeRefinement

  // ---------- connecting ----------

  lemma CausalIsFree()
    ensures Free(Causal)
  {
  }

  // A reader of a live connection blocks in readline.
  lemma Listens(inv: State -> bool, s: State, r: nat) returns (t: State)
    requires Keeps(Causal, inv) && inv(s) && r < |s.readers| && s.readers[r].ReadRunning? && s.running && s.file.Some?
    ensures inv(t) && t == s.(readers := s.readers[r := ReadLine], overlap := t.overlap)
  {
    t := Then(Causal, inv, s, Reader(r, Eof));
    t := Then(Causal, inv, t, Reader(r, Eof));
    t := Then(Causal, inv, t, Reader(r, Eof));
    assert t.readers == s.readers[r := ReadLine];
  }

  // The bridge is started, connects, and its reader waits for the first line.
  lemma StartsUp(inv: State -> bool) returns (t: State)
    requires Keeps(Causal, inv) && inv(INIT)
    ensures inv(t)
    ensures t == INIT.(running := true, desired := true, sock := t.sock, file := t.file, connectors := [TestDesired],
                       readers := [ReadLine], connections := 1, overlap := t.overlap) && t.file.Some?
  {
    CausalIsFree();
    t := Starts(Causal, inv, INIT);
    var u := t;
    t := Connects(Causal, inv, u);
    assert t.connectors == [TestDesired] && t.readers == [ReadRunning];
    u := t;
    t := Listens(inv, u, 0);
    assert t.readers == [ReadLine];
  }

  /** The state BridgeRefinement starts from is where a connecting bridge gets to. */
  lemma JustConnectedIsReachable() returns (t: State)
    ensures Reachable(Causal, INIT, t) && BridgeRefinement.JustConnected(t)
  {
    ReachableKept(Causal, INIT);
    t := StartsUp(x => Reachable(Causal, INIT, x));
  }

  // ---------- a reconnect in the middle of a close ----------

  // The reader meets the end of the stream and clears `_running`.
  lemma Fails(inv: State -> bool, s: State) returns (t: State)
    requires Keeps(Causal, inv) && inv(s) && s.readers == [ReadLine]
    ensures inv(t) && t == s.(running := false, readers := [DropFile], overlap := t.overlap)
  {
    t := Then(Causal, inv, s, Reader(0, Eof));
    t := Then(Causal, inv, t, Reader(0, Eof));
    assert t.readers == [DropFile];
  }

  // It then closes whatever connection there is by now.
  lemma Drops(inv: State -> bool, s: State) returns (t: State)
    requires Keeps(Causal, inv) && inv(s) && s.readers == [DropFile, ReadRunning]
    ensures inv(t) && t == s.(sock := None, file := None, readers := [Dead, ReadRunning], overlap := t.overlap)
  {
    t := Then(Causal, inv, s, Reader(0, Eof));
    t := Then(Causal, inv, t, Reader(0, Eof));
    assert t.readers == [Dead, ReadRunning];
  }

  // The connector reconnects after the reader has cleared `_running`, before it closes.
  lemma Reconnects(inv: State -> bool, s: State) returns (t: State)
    requires Keeps(Causal, inv) && inv(s) && s.readers == [DropFile] && s.connectors == [TestDesired] && s.desired
             && !s.running
    ensures inv(t) && t.running && t.connectors == [TestDesired] && t.readers == [DropFile, ReadRunning]
            && t.owner == s.owner
  {
    CausalIsFree();
    t := Connects(Causal, inv, s);
    assert t.connectors == [TestDesired] && t.readers == [DropFile, ReadRunning];
  }

  lemma Wedges(inv: State -> bool) returns (t: State)
    requires Keeps(Causal, inv) && inv(INIT)
    ensures inv(t) && Quiet(t) && Wedged(t)
  {
    t := StartsUp(inv);
    t := Fails(inv, t);
    t := Reconnects(inv, t);
    t := Drops(inv, t);
  }

  /** A reconnect between a failing reader's lines 111 and 112 ends with the bridge running without a
      connection, for good. */
  lemma WedgeIsReachable() returns (t: State)
    ensures Reachable(Causal, INIT, t) && Quiet(t) && Wedged(t)
    ensures NeverConnects(t) && RefusesNewCalls(t)
  {
    ReachableKept(Causal, INIT);
    t := Wedges(x => Reachable(Causal, INIT, x));
    var acts :| Reaches(Causal, INIT, acts, t);
    Relax(Causal, INIT, acts, t);
    NeverConnectsIff(acts, t);
    RefusesNewCallsIff(acts, t);
  }

  // ---------- a reply that comes twice ----------

  const REPLY := Object(Some(IntId(1)), false, None, 0)

  // The first call may go on, and be answered once its request is written.
  ghost predicate Serves(ok: (State, Action) -> bool) {
    && (forall s: State :: s.calls == [] ==> ok(s, NewCall))
    && (forall s: State :: ok(s, Caller(0, Go)))
    && (forall s: State | |s.readers| == 1 && !s.readers[0].ClearRunning? ::
          (s.readers[0].ReadLine? ==> 1 in s.sent) ==> ok(s, Reader(0, Got(Parsed(REPLY)))))
  }

  lemma CausalServes()
    ensures Serves(Causal)
  {
  }

  // A call passes its two tests.
  lemma CallBegins(ok: (State, Action) -> bool, inv: State -> bool, s: State) returns (t: State)
    requires Serves(ok) && Keeps(ok, inv) && inv(s) && s.running && s.file.Some? && s.calls == []
    ensures inv(t) && t == s.(calls := [Call(TakeId, 0, None)], overlap := t.overlap)
  {
    t := Then(ok, inv, s, NewCall);
    t := Then(ok, inv, t, Caller(0, Go));
    t := Then(ok, inv, t, Caller(0, Go));
    assert t.calls == [Call(TakeId, 0, None)];
  }

  // It goes on as far as waiting for its reply.
  lemma CallWaits(ok: (State, Action) -> bool, inv: State -> bool, s: State) returns (t: State)
    requires Serves(ok) && Keeps(ok, inv) && inv(s) && s.file.Some? && s.calls == [Call(TakeId, 0, None)]
    ensures inv(t)
    ensures t == s.(calls := [Call(Wait, s.nextId, None)], nextId := s.nextId + 1, pending := s.pending[s.nextId := 0],
                    sent := s.sent + {s.nextId}, overlap := t.overlap)
  {
    t := Then(ok, inv, s, Caller(0, Go));
    t := Then(ok, inv, t, Caller(0, Go));
    t := Then(ok, inv, t, Caller(0, Go));
    assert t.calls == [Call(Wait, s.nextId, None)];
  }

  // A listening reader takes the reply to call 0 off the wire and looks it up.
  lemma LooksUp(ok: (State, Action) -> bool, inv: State -> bool, s: State) returns (t: State)
    requires Serves(ok) && Keeps(ok, inv) && inv(s) && s.readers == [ReadLine] && 1 in s.sent
    requires 1 in s.pending && s.pending[1] == 0
    ensures inv(t) && t == s.(readers := [Put(0, REPLY)], stream := s.stream + [Parsed(REPLY)], overlap := t.overlap)
  {
    var a := Reader(0, Got(Parsed(REPLY)));
    t := Then(ok, inv, s, a);
    assert t.readers == [Lookup(REPLY)];
    t := Then(ok, inv, t, a);
    assert t.readers == [Put(0, REPLY)];
  }

  // A call waits, and times out.
  lemma TimesOut(inv: State -> bool, s: State) returns (t: State)
    requires Keeps(Causal, inv) && inv(s) && s.running && s.file.Some? && s.calls == [] && s.nextId == 1
    ensures inv(t)
    ensures t == s.(calls := [Call(Unregister(TimedOut), 1, None)], nextId := 2, pending := s.pending[1 := 0],
                    sent := s.sent + {1}, overlap := t.overlap)
  {
    CausalServes();
    t := CallBegins(Causal, inv, s);
    t := CallWaits(Causal, inv, t);
    t := Then(Causal, inv, t, Caller(0, Expire));
    assert t.calls == [Call(Unregister(TimedOut), 1, None)];
  }

  // The reply is put into the queue of a call that has timed out and is about to leave the table.
  lemma FillsTooLate(inv: State -> bool) returns (t: State)
    requires Keeps(Causal, inv) && inv(INIT)
    ensures inv(t) && t.running && t.file.Some? && t.readers == [ReadRunning] && t.pending == map[1 := 0] && 1 in t.sent
    ensures t.calls == [Call(Unregister(TimedOut), 1, Some(REPLY))]
  {
    CausalServes();
    t := StartsUp(inv);
    t := TimesOut(inv, t);
    t := LooksUp(Causal, inv, t);
    t := Then(Causal, inv, t, Reader(0, Eof));
  }

  lemma Blocks(inv: State -> bool) returns (t: State)
    requires Keeps(Causal, inv) && inv(INIT)
    ensures inv(t) && t.readers == [Put(0, REPLY)] && Stuck(t, 0, 0, REPLY) && t.running && t.file.Some?
  {
    CausalServes();
    t := FillsTooLate(inv);
    t := Listens(inv, t, 0);
    assert t.readers == [ReadLine];
    t := LooksUp(Causal, inv, t);
  }

  /** A reply that comes between a call's timeout and its removal from the table, and comes twice,
      blocks the reader for good while the bridge still counts as running. */
  lemma BlockIsReachable() returns (t: State)
    ensures Reachable(Causal, INIT, t) && |t.readers| == 1 && BlockedForever(t, 0)
    ensures Stranded(t) && t.file.Some?
  {
    ReachableKept(Causal, INIT);
    t := Blocks(x => Reachable(Causal, INIT, x));
    StuckIsForever(t, 0, 0, REPLY);
  }

  // ---------- runs of the kinds the positive results speak of ----------

  lemma SingleCallerServes()
    ensures Serves(BridgeRefinement.SingleCaller)
  {
  }

  // The reader puts the reply, the call takes it and is over.
  lemma Finishes(ok: (State, Action) -> bool, inv: State -> bool, s: State) returns (t: State)
    requires Serves(ok) && Keeps(ok, inv) && inv(s) && s.readers == [Put(0, REPLY)] && s.calls == [Call(Wait, 1, None)]
    ensures inv(t) && t.calls == [Call(Done(Answered(REPLY)), 1, None)]
  {
    t := Then(ok, inv, s, Reader(0, Got(Parsed(REPLY))));
    assert t.calls == [Call(Wait, 1, Some(REPLY))];
    t := Then(ok, inv, t, Caller(0, Go));
    assert t.calls == [Call(Unregister(Answered(REPLY)), 1, None)];
    t := Then(ok, inv, t, Caller(0, Go));
  }

  lemma IsAnswered(ok: (State, Action) -> bool, inv: State -> bool, s: State) returns (t: State)
    requires Serves(ok) && Keeps(ok, inv) && inv(s) && BridgeRefinement.JustConnected(s)
    ensures inv(t) && t.calls == [Call(Done(Answered(REPLY)), 1, None)]
  {
    t := CallBegins(ok, inv, s);
    t := CallWaits(ok, inv, t);
    t := LooksUp(ok, inv, t);
    t := Finishes(ok, inv, t);
  }

  /** From where the refinement starts there is a run of the kind it speaks of in which a call is answered. */
  lemma CallIsAnswered(s: State) returns (t: State)
    requires BridgeRefinement.JustConnected(s)
    ensures Reachable(BridgeRefinement.SingleCaller, s, t) && t.calls == [Call(Done(Answered(REPLY)), 1, None)]
  {
    SingleCallerServes();
    ReachableKept(BridgeRefinement.SingleCaller, s);
    t := IsAnswered(BridgeRefinement.SingleCaller, x => Reachable(BridgeRefinement.SingleCaller, s, x), s);
  }

  // With nothing but a connector in the way, one of its steps interrupts nobody.
  lemma Moves(inv: State -> bool, s: State, pc: ConnectorPc) returns (t: State)
    requires Keeps(Uninterrupted, inv) && inv(s)
    requires s.owner.Idle? && s.readers == [] && s.connectors == [pc] && !pc.Exited?
    ensures inv(t) && t == Step(s, Connector(0, true)).(overlap := t.overlap)
  {
    assert forall x :: Midway(s, x) ==> x == TheConnector(0);
    t := Then(Uninterrupted, inv, s, Connector(0, true));
  }

  // It connects.
  lemma {:induction false} ConnectsAlone(inv: State -> bool, s: State, pc: ConnectorPc) returns (t: State)
    requires Keeps(Uninterrupted, inv) && inv(s)
    requires s.owner.Idle? && s.readers == [] && s.connectors == [pc] && OnItsWay(s)
    requires pc.SetRunning? || pc.Spawn? ==> s.sock.Some? && s.file.Some?
    requires pc.SetFile? ==> s.sock.Some?
    ensures inv(t) && NobodyMidway(t) && t.running && t.sock.Some? && t.file.Some?
    decreases StepsToReader(pc)
  {
    t := Moves(inv, s, pc);
    if !pc.Spawn? {
      t := ConnectsAlone(inv, t, AfterConnector(s, pc, true));
    }
  }

  lemma StartsAlone(inv: State -> bool) returns (t: State)
    requires Keeps(Uninterrupted, inv) && inv(INIT)
    ensures inv(t) && NobodyMidway(t) && t.running && t.sock.Some? && t.file.Some?
  {
    t := Then(Uninterrupted, inv, INIT, Owner(true));
    t := Then(Uninterrupted, inv, t, Owner(true));
    assert t.connectors == [TestDesired];
    t := ConnectsAlone(inv, t, TestDesired);
  }

  /** There are uninterrupted runs that connect. */
  lemma UninterruptedRunConnects() returns (t: State)
    ensures Reachable(Uninterrupted, INIT, t) && NobodyMidway(t) && t.running && t.sock.Some? && t.file.Some?
  {
    ReachableKept(Uninterrupted, INIT);
    t := StartsAlone(x => Reachable(Uninterrupted, INIT, x));
  }

  // ---------- start and stop ----------

  lemma LosesStart(inv: State -> bool) returns (t: State)
    requires Keeps(Causal, inv) && inv(INIT)
    ensures inv(t) && t.desired && t.owner.Idle? && t.connections == 0 && Abandoned(t)
  {
    t := Starts(Causal, inv, INIT);
    t := Stops(Causal, inv, t);
    t := Then(Causal, inv, t, Connector(0, true));
    assert t.connectors == [Leaving];
    t := Starts(Causal, inv, t);
  }

  /** `start` right after `stop` can be lost: the bridge is meant to run, and never connects. */
  lemma LostStartIsReachable() returns (t: State)
    ensures Reachable(Causal, INIT, t)
    ensures t.desired && t.owner.Idle? && t.connections == 0 && Abandoned(t)
  {
    ReachableKept(Causal, INIT);
    t := LosesStart(x => Reachable(Causal, INIT, x));
  }

  lemma StopsTooEarly(inv: State -> bool) returns (t: State)
    requires Keeps(Causal, inv) && inv(INIT)
    ensures inv(t) && !t.desired && t.owner.Idle? && t.running && t.file.Some? && LastReaderAlive(t)
  {
    CausalIsFree();
    t := Starts(Causal, inv, INIT);
    t := Then(Causal, inv, t, Connector(0, true));
    assert t.connectors == [TestRunning];
    t := Stops(Causal, inv, t);
    t := Connects(Causal, inv, t);
  }

  /** `stop` during a reconnect can leave the bridge connected. */
  lemma StopMayNotDisconnect() returns (t: State)
    ensures Reachable(Causal, INIT, t)
    ensures !t.desired && t.owner.Idle? && t.running && t.file.Some? && LastReaderAlive(t)
  {
    ReachableKept(Causal, INIT);
    t := StopsTooEarly(x => Reachable(Causal, INIT, x));
  }
}
