/** What `start` and `stop` achieve, with the other threads running on. */
module BridgeOwner {
  import opened BridgeMachine
  import opened BridgeConnection
  import opened BridgeProgress

  // ---------- stop ----------

  function Budget(s: State): nat { if MayOpen(Newest(s.connectors)) then 1 else 0 }

  ghost predicate Stopped(s: State) { OneConnector(s) && !s.desired && !s.owner.StartSpawn? }

  lemma StoppedStep(s: State, a: Action)
    requires Stopped(s) && Enabled(s, a) && NoStart(s, a)
    ensures Stopped(Apply(s, a)) && |Apply(s, a).connectors| == |s.connectors|
    ensures Apply(s, a).connections + Budget(Apply(s, a)) <= s.connections + Budget(s)
    ensures s.connections <= Apply(s, a).connections
  {
    StepKeepsOneConnector(s, a);
    match a
    case Owner(start) =>
    case Connector(c, opens) =>
    case Reader(r, input) =>
    case NewCall =>
    case Caller(i, choice) =>
  }

  lemma {:induction false} StoppedRun(s: State, acts: seq<Action>, t: State)
    requires Stopped(s) && Reaches(NoStart, s, acts, t)
    ensures Stopped(t) && |t.connectors| == |s.connectors|
    ensures s.connections <= t.connections && t.connections + Budget(t) <= s.connections + Budget(s)
    decreases |acts|
  {
    if acts != [] {
      StoppedStep(s, acts[0]);
      StoppedRun(Apply(s, acts[0]), acts[1..], t);
    }
  }

  /** After `stop` and with no later `start`, at most one connector thread is left, no thread is added,
      and at most one more connection is opened: none at all unless the connector had already found
      `_desired_running` set when it was cleared. */
  lemma AtMostOneConnectionAfterStop(a1: seq<Action>, s: State, a2: seq<Action>, t: State)
    requires Reaches(Anything, INIT, a1, s) && !s.desired
    requires Reaches(NoStart, s, a2, t)
    ensures |t.connectors| == |s.connectors| && forall c :: 0 <= c < |t.connectors| - 1 ==> t.connectors[c].Exited?
    ensures s.connections <= t.connections <= s.connections + 1
    ensures !MayOpen(Newest(s.connectors)) ==> t.connections == s.connections
  {
    SharedHolds(a1, s);
    StoppedRun(s, a2, t);
  }

  // How far `stop` has got, with nobody working against it.
  ghost predicate GoingDown(s: State) {
    && Stopped(s) && !Committed(Newest(s.connectors))
    && (s.owner.StopDropFile? ==> !s.running)
    && (s.owner.StopDropSock? ==> !s.running && s.file.None?)
    && (s.owner.Idle? ==> Down(s))
  }

  lemma GoingDownStep(s: State, a: Action)
    requires GoingDown(s) && Enabled(s, a) && NoStart(s, a)
    ensures GoingDown(Apply(s, a))
  {
    StoppedStep(s, a);
    match a
    case Owner(start) =>
    case Connector(c, opens) =>
    case Reader(r, input) =>
    case NewCall =>
    case Caller(i, choice) =>
  }

  // Whatever happens after `stop`, whenever it is over the bridge is down.
  ghost predicate StopDisconnects(s: State) {
    forall t :: Reachable(NoStart, s, t) && t.owner.Idle? ==> Down(t)
  }

  // `stop` runs to its end, and only then the connector goes on.
  lemma ConnectsAfterStop(inv: State -> bool, s: State) returns (t: State)
    requires Keeps(NoStart, inv) && inv(s) && OneConnector(s) && s.owner.StopClear? && Committed(Newest(s.connectors))
    ensures inv(t) && t.owner.Idle? && t.running
  {
    var u := Then(NoStart, inv, s, Owner(false));
    u := StopsClosing(NoStart, inv, u);
    assert OneConnector(u) && OnItsWay(u);
    t := Connects(NoStart, inv, u);
  }

  /** `stop` leaves the bridge disconnected, whatever the other threads do, exactly when the connector
      was not on its way to a new connection as `_desired_running` was cleared. */
  lemma StopDisconnectsIff(a1: seq<Action>, s: State)
    requires Reaches(Anything, INIT, a1, s) && s.owner.StopClear?
    ensures StopDisconnects(s) <==> !Committed(Newest(s.connectors))
  {
    SharedHolds(a1, s);
    if Committed(Newest(s.connectors)) {
      ReachableKept(NoStart, s);
      var t := ConnectsAfterStop(x => Reachable(NoStart, s, x), s);
    } else {
      forall x, a | GoingDown(x) && Enabled(x, a) && NoStart(x, a) ensures GoingDown(Apply(x, a)) {
        GoingDownStep(x, a);
      }
      forall t | Reachable(NoStart, s, t) && t.owner.Idle? ensures Down(t) {
        var acts :| Reaches(NoStart, s, acts, t);
        KeptOverRuns(NoStart, GoingDown, s, acts, t);
      }
    }
  }

  // ---------- start ----------

  // Some connector will test `_desired_running` again.
  ghost predicate ConnectorAtWork(s: State) {
    exists c :: 0 <= c < |s.connectors| && !s.connectors[c].Leaving? && !s.connectors[c].Exited?
  }

  /** `start` leaves a connector at work exactly when it does not find the previous one already past its
      loop but not yet gone: then `is_alive` is still true, no thread is created, and the start is lost. */
  lemma StartIsLostIff(a1: seq<Action>, s: State, start: bool)
    requires Reaches(Anything, INIT, a1, s) && s.owner.StartSpawn?
    ensures ConnectorAtWork(OwnerStep(s, start)) <==> !Newest(s.connectors).Leaving?
  {
    SharedHolds(a1, s);
    var t := OwnerStep(s, start);
    if s.connectors != [] && !s.connectors[|s.connectors| - 1].Exited? {
      assert t.connectors == s.connectors;
      if !Newest(s.connectors).Leaving? {
        assert !s.connectors[|s.connectors| - 1].Exited?;
      }
    } else {
      assert t.connectors[|s.connectors|] == TestDesired;
    }
  }

  ghost predicate KeepsWorking(s: State) {
    OwnerDecided(s) && OneConnector(s) && s.desired && ConnectorAtWork(s)
  }

  lemma WorkingStep(s: State, a: Action)
    requires KeepsWorking(s) && Enabled(s, a) && NoStop(s, a)
    ensures KeepsWorking(Apply(s, a))
  {
    StepKeepsOneConnector(s, a);
    var t := Step(s, a);
    var c :| 0 <= c < |s.connectors| && !s.connectors[c].Leaving? && !s.connectors[c].Exited?;
    assert !t.connectors[c].Leaving? && !t.connectors[c].Exited?;
  }

  /** A connector at work stays at work until the next `stop`, however often connecting fails. */
  lemma ConnectorStaysAtWork(a1: seq<Action>, s: State, a2: seq<Action>, t: State)
    requires Reaches(Anything, INIT, a1, s) && s.desired && ConnectorAtWork(s)
    requires Reaches(NoStop, s, a2, t)
    ensures t.desired && ConnectorAtWork(t)
  {
    SharedHolds(a1, s);
    forall x, a | KeepsWorking(x) && Enabled(x, a) && NoStop(x, a) ensures KeepsWorking(Apply(x, a)) {
      WorkingStep(x, a);
    }
    KeptOverRuns(NoStop, KeepsWorking, s, a2, t);
  }

  // The bridge is running when the step is taken.
  ghost predicate WhileRunning(s: State, a: Action) { s.running }

  // Asleep in its loop, or on its way out.
  predicate Resting(pc: ConnectorPc) { pc.TestDesired? || pc.TestRunning? || pc.Leaving? || pc.Exited? }

  /** While the bridge is running a connector in its loop does not even go for the lock. */
  lemma {:induction false} ConnectorRestsWhileRunning(s: State, acts: seq<Action>, t: State, c: nat)
    requires Reaches(WhileRunning, s, acts, t) && c < |s.connectors| && Resting(s.connectors[c])
    ensures c < |t.connectors| && Resting(t.connectors[c])
    decreases |acts|
  {
    if acts != [] {
      ConnectorRestsWhileRunning(Apply(s, acts[0]), acts[1..], t, c);
    }
  }

  ghost predicate Abandoned(s: State) { !ConnectorAtWork(s) && !s.owner.StartSpawn? }

  lemma AbandonedStep(s: State, a: Action)
    requires Abandoned(s) && Enabled(s, a) && NoStart(s, a)
    ensures Abandoned(Apply(s, a)) && Apply(s, a).connections == s.connections
  {
    match a
    case Owner(start) =>
    case Connector(c, opens) =>
      assert s.connectors[c].Leaving?;
    case Reader(r, input) =>
    case NewCall =>
    case Caller(i, choice) =>
  }

  /** After a lost start the bridge never connects until `start` is called again. */
  lemma {:induction false} LostStartNeverConnects(s: State, acts: seq<Action>, t: State)
    requires Abandoned(s) && Reaches(NoStart, s, acts, t)
    ensures Abandoned(t) && t.connections == s.connections
    decreases |acts|
  {
    if acts != [] {
      AbandonedStep(s, acts[0]);
      LostStartNeverConnects(Apply(s, acts[0]), acts[1..], t);
    }
  }
}
