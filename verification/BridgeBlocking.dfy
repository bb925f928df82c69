/** A server that answers a request twice, or answers what it was never sent: when a reader blocks. */
module BridgeBlocking {
  import opened JsonRpc
  import opened BridgeMachine
  import opened BridgeTable
  import opened BridgeConnection
  import opened BridgeProgress

  // Reader r never moves again, whatever happens.
  ghost predicate BlockedForever(s: State, r: nat) {
    r < |s.readers| && forall t :: Reachable(Anything, s, t) ==> r < |t.readers| && t.readers[r] == s.readers[r]
  }

  // The reader waits to put into a full queue nobody will ever read again.
  ghost predicate Stuck(s: State, r: nat, q: nat, m: Json) {
    && r < |s.readers| && s.readers[r] == Put(q, m)
    && q < |s.calls| && s.calls[q].slot.Some? && ExitOf(s.calls[q].pc).Some?
  }

  lemma StuckStaysStuck(s: State, a: Action, r: nat, q: nat, m: Json)
    requires Stuck(s, r, q, m) && Enabled(s, a)
    ensures Stuck(Apply(s, a), r, q, m)
  {
    match a
    case Owner(start) =>
    case Connector(c, opens) =>
    case NewCall =>
    case Caller(i, choice) =>
    case Reader(p, input) =>
  }

  lemma StuckIsForever(s: State, r: nat, q: nat, m: Json)
    requires Stuck(s, r, q, m)
    ensures BlockedForever(s, r)
  {
    var inv := (x: State) => Stuck(x, r, q, m);
    forall x, a | inv(x) && Enabled(x, a) ensures inv(Apply(x, a)) {
      StuckStaysStuck(x, a, r, q, m);
    }
    forall t | Reachable(Anything, s, t) ensures r < |t.readers| && t.readers[r] == s.readers[r] {
      var acts :| Reaches(Anything, s, acts, t);
      KeptOverRuns(Anything, inv, s, acts, t);
    }
  }

  // As long as its call has yet to read its queue, the bridge can be brought to let the reader go on.
  lemma Unblocks(s: State, r: nat) returns (t: State)
    requires OneConnector(s) && r < |s.readers| && s.readers[r].Put? && s.readers[r].call < |s.calls|
    requires s.calls[s.readers[r].call].slot.Some? ==> WillGet(s.calls[s.readers[r].call].pc)
    ensures Reachable(Anything, s, t) && r < |t.readers| && t.readers[r].ReadRunning?
  {
    ReachableKept(Anything, s);
    var inv := x => Reachable(Anything, s, x);
    t := GetsFile(inv, s);
    t := Delivers(Anything, inv, t, r);
  }

  /** Whatever the server sends, a reader that has a reply to put is blocked for good if and only if the
      queue is full and the call it belongs to is past its get. */
  lemma BlockedForeverIff(acts: seq<Action>, s: State, r: nat)
    requires Reaches(Anything, INIT, acts, s)
    requires r < |s.readers| && s.readers[r].Put?
    ensures s.readers[r].call < |s.calls|
    ensures BlockedForever(s, r) <==>
              s.calls[s.readers[r].call].slot.Some? && ExitOf(s.calls[s.readers[r].call].pc).Some?
  {
    InvHolds(acts, s);
    SharedHolds(acts, s);
    assert ReaderOk(s.readers[r], s.calls, s.stream);
    var q := s.readers[r].call;
    if s.calls[q].slot.Some? && ExitOf(s.calls[q].pc).Some? {
      StuckIsForever(s, r, q, s.readers[r].msg);
    } else {
      var t := Unblocks(s, r);
    }
  }
}
