/** How calls and readers end, said of the steps of the run that led there. */
module BridgeEndings {
  import opened Wrappers
  import opened BridgeMachine
  import opened BridgeTable

  // A step of call i while it is where `at` says.
  predicate CallSteps(s: State, a: Action, i: nat, choice: Choice) {
    a == Caller(i, choice) && i < |s.calls|
  }

  // Line 121 finds the bridge not running, or without a file.
  predicate FindsDisconnected(s: State, a: Action, i: nat) {
    && a.Caller? && a.i == i && i < |s.calls|
    && ((s.calls[i].pc.CheckRunning? && !s.running) || (s.calls[i].pc.CheckFile? && s.file.None?))
  }

  // The get ends with the reply in the queue, with the timeout, or the write or the get raises.
  predicate Ends(s: State, a: Action, i: nat, how: Exit) {
    match how
    case Refused => FindsDisconnected(s, a, i)
    case Answered(m) => CallSteps(s, a, i, Go) && s.calls[i].pc.Wait? && s.calls[i].slot == Some(m)
    case TimedOut => CallSteps(s, a, i, Expire) && s.calls[i].pc.Wait? && s.calls[i].slot.None?
    case Aborted => CallSteps(s, a, i, Fail) && (s.calls[i].pc.Send? || s.calls[i].pc.Wait?)
  }

  predicate HasEnded(s: State, i: nat, how: Exit) { i < |s.calls| && ExitOf(s.calls[i].pc) == Some(how) }

  lemma EndsStep(s: State, a: Action, i: nat, how: Exit)
    requires Enabled(s, a)
    ensures HasEnded(Apply(s, a), i, how) <==> HasEnded(s, i, how) || Ends(s, a, i, how)
  {
    match a
    case Owner(start) =>
    case Connector(c, opens) =>
    case Reader(r, input) =>
    case NewCall =>
    case Caller(j, choice) =>
  }

  lemma AlwaysTrue()
    ensures Keeps(Anything, s => true)
  {
  }

  /** A call has ended as it has if and only if a step of the run ended it so: it is refused when it finds
      the bridge not running or without a file, answered when the get finds a reply, timed out when it
      finds none, aborted when the write or the get raises. */
  lemma CallEndsIff(acts: seq<Action>, t: State, i: nat, how: Exit)
    requires Reaches(Anything, INIT, acts, t)
    ensures HasEnded(t, i, how) <==> Happened(INIT, acts, (s, a) => Ends(s, a, i, how))
  {
    var p, f := (s, a) => Ends(s, a, i, how), s => HasEnded(s, i, how);
    forall s, a | Enabled(s, a) ensures f(Apply(s, a)) <==> f(s) || p(s, a) {
      EndsStep(s, a, i, how);
    }
    AlwaysTrue();
    TrueIffHappened(s => true, INIT, acts, t, p, f);
  }

  // Some call writes request k to a connection that has a file.
  predicate Writes(s: State, a: Action, k: int) {
    && a.Caller? && a.i < |s.calls| && CallSteps(s, a, a.i, Go)
    && s.calls[a.i].pc.Send? && s.calls[a.i].id == k && s.file.Some?
  }

  /** What the server has been sent is what calls have written. */
  lemma SentIffWritten(acts: seq<Action>, t: State, k: int)
    requires Reaches(Anything, INIT, acts, t)
    ensures k in t.sent <==> Happened(INIT, acts, (s, a) => Writes(s, a, k))
  {
    var p, f := (s, a) => Writes(s, a, k), (s: State) => k in s.sent;
    forall s, a | Enabled(s, a) ensures f(Apply(s, a)) <==> f(s) || p(s, a) {
    }
    AlwaysTrue();
    TrueIffHappened(s => true, INIT, acts, t, p, f);
  }

  // The reader leaves its loop as a test fails, or is through with closing the connection.
  predicate Leaves(s: State, a: Action, r: nat) {
    && a.Reader? && a.r == r && r < |s.readers|
    && ((s.readers[r].ReadRunning? && !s.running) || (s.readers[r].ReadFile? && s.file.None?) || s.readers[r].DropSock?)
  }

  predicate IsDead(s: State, r: nat) { r < |s.readers| && s.readers[r].Dead? }

  lemma LeavesStep(s: State, a: Action, r: nat)
    requires Enabled(s, a)
    ensures IsDead(Apply(s, a), r) <==> IsDead(s, r) || Leaves(s, a, r)
  {
    match a
    case Owner(start) =>
    case Connector(c, opens) =>
    case Reader(q, input) =>
    case NewCall =>
    case Caller(j, choice) =>
  }

  /** A reader is gone if and only if it found the bridge not running or without a file, or has closed the
      connection. */
  lemma ReaderIsGoneIff(acts: seq<Action>, t: State, r: nat)
    requires Reaches(Anything, INIT, acts, t)
    ensures IsDead(t, r) <==> Happened(INIT, acts, (s, a) => Leaves(s, a, r))
  {
    var p, f := (s, a) => Leaves(s, a, r), s => IsDead(s, r);
    forall s, a | Enabled(s, a) ensures f(Apply(s, a)) <==> f(s) || p(s, a) {
      LeavesStep(s, a, r);
    }
    AlwaysTrue();
    TrueIffHappened(s => true, INIT, acts, t, p, f);
  }
}
