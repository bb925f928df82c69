/** When "running" and the connection stay in agreement, and when the bridge is stranded: counted as
    running, and never to connect again. */
module BridgeWedge {
  import opened JsonRpc
  import opened BridgeMachine
  import opened BridgeTable
  import opened BridgeConnection
  import opened BridgeProgress

  // The owner is in neither `start` nor `stop`, and nobody is midway.
  predicate Quiet(s: State) { s.owner.Idle? && NobodyMidway(s) }

  // ---------- agreement ----------

  // Whatever happens before the next `start`, whenever nobody is midway "running" and the connection agree.
  ghost predicate AgreesUntilStart(s: State) {
    forall t :: Reachable(NoStart, s, t) && NobodyMidway(t) ==> Agree(t)
  }

  // The connector may still set up a connection without another `start`.
  predicate MayConnect(s: State) {
    Committed(Newest(s.connectors)) || (s.desired && Newest(s.connectors).TestDesired?)
  }

  // They agree, or somebody is about to make them.
  ghost predicate Agreeing(s: State) {
    && SharedInv(s) && !MayConnect(s) && !s.owner.StartSpawn? && !Establishing(Newest(s.connectors))
    && (s.running ==> !SomeClosing(s) && s.sock.Some? && s.file.Some?)
  }

  lemma AgreeingStep(s: State, a: Action)
    requires Agreeing(s) && Enabled(s, a) && NoStart(s, a)
    ensures Agreeing(Apply(s, a))
  {
    var u, t := Step(s, a), Apply(s, a);
    SharedStep(s, a);
    assert SomeClosing(u) == SomeClosing(t);
    match a
    case Owner(start) => ClosingStays(u.(owner := s.owner), s);
    case Connector(c, opens) => assert c == |s.connectors| - 1; NewReaderClosesNothing(s, c, opens);
    case Reader(r, input) =>
      if s.running && !s.readers[r].ClearRunning? { NotYetClosing(s, r, input); }
    case NewCall => ClosingStays(t, s);
    case Caller(i, choice) => ClosingStays(t, s);
  }

  // A `stop` around a connector that is setting up a connection.
  lemma Disagrees(inv: State -> bool, s: State) returns (t: State)
    requires Keeps(NoStart, inv) && inv(s) && SharedInv(s) && Quiet(s) && MayConnect(s)
    ensures inv(t) && t.running && t.file.None? && NobodyMidway(t)
  {
    NewestEstablishes(s);
    var u := s;
    if Newest(s.connectors).TestDesired? {
      u := Then(NoStart, inv, s, Connector(|s.connectors| - 1, true));
    }
    u := StopsRunning(NoStart, inv, u);
    assert OneConnector(u) && OnItsWay(u) && u.readers == s.readers;
    var v := Connects(NoStart, inv, u);
    t := StopsClosing(NoStart, inv, v);
    assert OneConnector(t) && Newest(t.connectors) == TestDesired;
    NewestEstablishes(t);
    forall r | 0 <= r < |t.readers| ensures !ReaderClosing(t.readers[r]) {
      assert r < |s.readers| ==> t.readers[r] == s.readers[r] && !ReaderClosing(s.readers[r]);
    }
  }

  /** From any reachable state between the owner's calls and with nobody midway: "running" and the
      connection agree in every such state until the next `start` if and only if they do now and the
      connector is not going to set up a connection. */
  lemma AgreesUntilStartIff(acts: seq<Action>, s: State)
    requires Reaches(Anything, INIT, acts, s) && Quiet(s)
    ensures AgreesUntilStart(s) <==> Agree(s) && !MayConnect(s)
  {
    SharedHolds(acts, s);
    NewestEstablishes(s);
    ReachableKept(NoStart, s);
    if MayConnect(s) {
      var t := Disagrees(x => Reachable(NoStart, s, x), s);
    } else if Agree(s) {
      forall x, a | Agreeing(x) && Enabled(x, a) && NoStart(x, a) ensures Agreeing(Apply(x, a)) {
        AgreeingStep(x, a);
      }
      forall t | Reachable(NoStart, s, t) && NobodyMidway(t) ensures Agree(t) {
        var more :| Reaches(NoStart, s, more, t);
        KeptOverRuns(NoStart, Agreeing, s, more, t);
      }
    }
  }

  // Bring a connector to work, if there is none.
  lemma Restarts(inv: State -> bool, s: State) returns (t: State)
    requires Keeps(Anything, inv) && inv(s) && OneConnector(s) && Quiet(s) && !MayConnect(s)
    ensures inv(t) && Quiet(t) && MayConnect(t)
  {
    t := s;
    if Newest(s.connectors).Leaving? {
      t := Then(Anything, inv, s, Connector(|s.connectors| - 1, true));
    }
    assert OneConnector(t);
    t := Starts(Anything, inv, t);
    assert OneConnector(t) && t.readers == s.readers;
    NewestEstablishes(s);
    NewestEstablishes(t);
    ClosingStays(t, s);
  }

  /** Once `start` may be called again, nothing protects the agreement: from every such state some run
      ends with a bridge that is "running" without a file. */
  lemma DisagreementThreatens(acts: seq<Action>, s: State) returns (t: State)
    requires Reaches(Anything, INIT, acts, s) && Quiet(s)
    ensures Reachable(Anything, s, t) && t.running && t.file.None? && NobodyMidway(t)
  {
    SharedHolds(acts, s);
    ReachableKept(Anything, s);
    var inv := x => SharedInv(x) && Reachable(Anything, s, x);
    forall x, a | inv(x) && Enabled(x, a) ensures inv(Apply(x, a)) {
      SharedStep(x, a);
    }
    t := s;
    if !MayConnect(s) { t := Restarts(inv, s); }
    t := Disagrees(inv, t);
  }

  // ---------- stranded: running, and never to connect again ----------

  // The reader will not clear `_running`.
  predicate Harmless(s: State, pc: ReaderPc) {
    match pc
    case Dead => true
    case ReadRunning => s.file.None?
    case ReadFile => s.file.None?
    case Lookup(m) => s.file.None? && !Unhashable(m)
    case Put(q, _) => s.file.None? || (q < |s.calls| && s.calls[q].slot.Some? && ExitOf(s.calls[q].pc).Some?)
    case _ => false
  }

  /** The bridge counts as running and no reader will ever notice anything: either there is no file left
      to read from, or every reader left is blocked at a full queue nobody reads. */
  ghost predicate Stranded(s: State) {
    s.running && forall r :: 0 <= r < |s.readers| ==> Harmless(s, s.readers[r])
  }

  /** "Running" without a file, and nobody left who would notice. */
  ghost predicate Wedged(s: State) { Stranded(s) && s.file.None? }

  // No connection is opened before the next `stop`.
  ghost predicate NeverConnects(s: State) {
    forall t :: Reachable(NoStop, s, t) ==> t.connections == s.connections
  }

  // Only the first n calls may have got past line 121.
  ghost predicate NewCallsRefused(s: State, n: nat) {
    forall i :: n <= i < |s.calls| ==>
          s.calls[i].pc.CheckRunning? || s.calls[i].pc.CheckFile? || s.calls[i].pc == Done(Refused)
  }

  // Until the next `stop` every new call is refused.
  ghost predicate RefusesNewCalls(s: State) {
    forall t :: Reachable(NoStop, s, t) ==> NewCallsRefused(t, |s.calls|)
  }

  ghost predicate StrandedInv(s: State) {
    SharedInv(s) && Stranded(s) && !Newest(s.connectors).Spawn? && (s.owner.Idle? || s.owner.StartSpawn?)
  }

  lemma StrandedStep(s: State, a: Action)
    requires StrandedInv(s) && Enabled(s, a) && NoStop(s, a)
    ensures StrandedInv(Apply(s, a)) && Apply(s, a).connections == s.connections && Apply(s, a).file == s.file
  {
    SharedStep(s, a);
    match a
    case Owner(start) =>
    case Connector(c, opens) => assert c == |s.connectors| - 1;
    case Reader(r, input) => assert Harmless(s, s.readers[r]);
    case NewCall =>
    case Caller(i, choice) =>
  }

  lemma RefusedStep(s: State, a: Action, n: nat)
    requires s.file.None? && NewCallsRefused(s, n) && Enabled(s, a)
    ensures NewCallsRefused(Apply(s, a), n)
  {
    match a
    case Owner(start) =>
    case Connector(c, opens) =>
    case Reader(r, input) =>
    case NewCall =>
    case Caller(i, choice) =>
  }

  lemma StrandedForGood(s: State)
    requires StrandedInv(s)
    ensures NeverConnects(s) && (s.file.None? ==> RefusesNewCalls(s))
  {
    var n := |s.calls|;
    var inv := x => StrandedInv(x) && x.connections == s.connections && x.file == s.file
                    && (s.file.None? ==> NewCallsRefused(x, n));
    forall x, a | inv(x) && Enabled(x, a) && NoStop(x, a) ensures inv(Apply(x, a)) {
      StrandedStep(x, a);
      if s.file.None? { RefusedStep(x, a, n); }
    }
    forall t | Reachable(NoStop, s, t) ensures inv(t) {
      var acts :| Reaches(NoStop, s, acts, t);
      KeptOverRuns(NoStop, inv, s, acts, t);
    }
  }

  // ---------- not stranded: the bridge can be brought back ----------

  // Connected, with a new reader, and the connector ready for the next time.
  ghost predicate Up(s: State) {
    && OneConnector(s) && s.owner.Idle? && s.desired && Newest(s.connectors).TestDesired?
    && s.running && s.file.Some? && s.readers != [] && s.readers[|s.readers| - 1].ReadRunning?
  }

  ghost predicate Resting(s: State) { OneConnector(s) && s.owner.Idle? && !Establishing(Newest(s.connectors)) }

  lemma ComesUp(inv: State -> bool, s: State) returns (t: State)
    requires Keeps(NoStop, inv) && inv(s) && Resting(s) && !s.running
    ensures inv(t) && Up(t) && |t.calls| == |s.calls| && s.connections <= t.connections
  {
    t := s;
    if Newest(s.connectors).Leaving? {
      t := Then(NoStop, inv, s, Connector(|s.connectors| - 1, true));
    }
    assert OneConnector(t);
    t := Starts(NoStop, inv, t);
    assert OneConnector(t) && OnItsWay(t);
    t := Connects(NoStop, inv, t);
  }

  // And down, and up again.
  lemma ConnectsAgain(inv: State -> bool, s: State) returns (t: State)
    requires Keeps(NoStop, inv) && inv(s) && Up(s)
    ensures inv(t) && t.connections == s.connections + 1
  {
    t := Closes(NoStop, inv, s, |s.readers| - 1);
    assert OneConnector(t) && OnItsWay(t);
    t := Connects(NoStop, inv, t);
  }

  lemma CallGetsIn(inv: State -> bool, s: State, n: nat) returns (t: State)
    requires Keeps(NoStop, inv) && inv(s) && s.running && s.file.Some? && n <= |s.calls|
    ensures inv(t) && !NewCallsRefused(t, n)
  {
    var i := |s.calls|;
    t := Then(NoStop, inv, s, NewCall);
    t := Then(NoStop, inv, t, Caller(i, Go));
    t := Then(NoStop, inv, t, Caller(i, Go));
    assert t.calls[i].pc == TakeId;
  }

  // What is looked up under k is a call that will still read its queue.
  predicate LeadsToGet(s: State, k: int) {
    k in s.pending ==> s.pending[k] < |s.calls| && WillGet(s.calls[s.pending[k]].pc)
  }

  // A call past its get leaves the table.
  lemma LeavesTable(inv: State -> bool, s: State, k: int) returns (t: State)
    requires Keeps(NoStop, inv) && inv(s) && Inv(s)
    ensures inv(t) && OnlyCalls(s, t) && LeadsToGet(t, k)
  {
    t := s;
    if k in s.pending && !LeadsToGet(s, k) {
      assert s.calls[s.pending[k]].pc.Unregister? && s.calls[s.pending[k]].id == k;
      t := Then(NoStop, inv, s, Caller(s.pending[k], Go));
    }
  }

  // A reader with a hashable id to look up gets rid of its message.
  lemma PassesLookup(inv: State -> bool, s: State, r: nat) returns (t: State)
    requires Keeps(NoStop, inv) && inv(s) && s.file.Some?
    requires r < |s.readers| && s.readers[r].Lookup? && !Unhashable(s.readers[r].msg)
    requires Key(s.readers[r].msg).Some? ==> LeadsToGet(s, Key(s.readers[r].msg).value)
    ensures inv(t) && OnlyCalls(s.(readers := s.readers[r := ReadRunning]), t)
  {
    t := Then(NoStop, inv, s, Reader(r, Eof));
    if t.readers[r].Put? {
      var u := t;
      assert u.readers[r := ReadRunning] == s.readers[r := ReadRunning];
      t := Delivers(NoStop, inv, u, r);
    }
  }

  // A reader that is not harmless can be brought to clear `_running`.
  lemma ReaderClears(inv: State -> bool, s: State, r: nat) returns (t: State)
    requires Keeps(NoStop, inv) && inv(s) && Inv(s) && s.running
    requires r < |s.readers| && !Harmless(s, s.readers[r]) && !ReaderClosing(s.readers[r])
    ensures inv(t) && !t.running
    ensures t.connectors == s.connectors && t.owner == s.owner && t.connections == s.connections
            && |t.calls| == |s.calls|
  {
    t := s;
    if s.readers[r].Lookup? && !Unhashable(s.readers[r].msg) {
      if Key(s.readers[r].msg).Some? { t := LeavesTable(inv, s, Key(s.readers[r].msg).value); }
      t := PassesLookup(inv, t, r);
    } else if s.readers[r].Put? {
      assert ReaderOk(s.readers[r], s.calls, s.stream);
      t := Delivers(NoStop, inv, s, r);
    }
    t := Closes(NoStop, inv, t, r);
  }

  lemma Recovers(inv: State -> bool, s: State) returns (t: State)
    requires Keeps(NoStop, inv) && inv(s) && Inv(s) && OneConnector(s) && Quiet(s) && !Stranded(s)
    ensures inv(t) && Up(t) && |t.calls| == |s.calls| && s.connections <= t.connections
  {
    NewestEstablishes(s);
    t := s;
    if s.running {
      var r :| 0 <= r < |s.readers| && !Harmless(s, s.readers[r]);
      t := ReaderClears(inv, s, r);
    }
    t := ComesUp(inv, t);
  }

  /** From any reachable state between the owner's calls and with nobody midway: no connection is ever
      opened without another `stop` if and only if the bridge is stranded. */
  lemma NeverConnectsIff(acts: seq<Action>, s: State)
    requires Reaches(Anything, INIT, acts, s) && Quiet(s)
    ensures NeverConnects(s) <==> Stranded(s)
  {
    InvHolds(acts, s);
    SharedHolds(acts, s);
    NewestEstablishes(s);
    if Stranded(s) {
      StrandedForGood(s);
    } else {
      ReachableKept(NoStop, s);
      var inv := x => Reachable(NoStop, s, x);
      var t := Recovers(inv, s);
      t := ConnectsAgain(inv, t);
    }
  }

  /** And every new call is refused until another `stop` if and only if it is wedged. */
  lemma RefusesNewCallsIff(acts: seq<Action>, s: State)
    requires Reaches(Anything, INIT, acts, s) && Quiet(s)
    ensures RefusesNewCalls(s) <==> Wedged(s)
  {
    InvHolds(acts, s);
    SharedHolds(acts, s);
    NewestEstablishes(s);
    if Wedged(s) {
      StrandedForGood(s);
    } else {
      ReachableKept(NoStop, s);
      var inv := x => Reachable(NoStop, s, x);
      var t := s;
      if !Stranded(s) { t := Recovers(inv, s); }
      t := CallGetsIn(inv, t, |s.calls|);
    }
  }
}
