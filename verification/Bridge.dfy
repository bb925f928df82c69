/** `call`, `start` and `stop` as their threads run them, on the bridge's own fields, with the other
    threads running in between. */
module Bridge {
  import opened Wrappers
  import opened JsonRpc
  import opened BridgeMachine
  import opened BridgeTable
  import opened BridgeConnection
  import opened BridgeOwner

  datatype CallResult = NotConnected | Timeout | Failed | Replied(result: Result)

  // Any thread but the one running call i.
  ghost predicate Others(i: nat, s: State, a: Action) { !(a.Caller? && a.i == i) }

  // While the others run, call i stays where it is; all that can happen to it is a reply in its queue.
  ghost predicate Untouched(s: State, t: State, i: nat) {
    && i < |s.calls| <= |t.calls|
    && t.calls[i].pc == s.calls[i].pc && t.calls[i].id == s.calls[i].id
  }

  lemma OthersLeaveCall(s: State, a: Action, i: nat)
    requires i < |s.calls| && Enabled(s, a) && Others(i, s, a)
    ensures Untouched(s, Apply(s, a), i)
  {
    match a
    case Owner(start) =>
    case Connector(c, opens) =>
    case Reader(r, input) =>
    case NewCall =>
    case Caller(j, choice) =>
  }

  // Any thread but the owner.
  ghost predicate NotOwner(s: State, a: Action) { !a.Owner? }

  lemma {:induction false} OwnerStays(s: State, acts: seq<Action>, t: State)
    requires Reaches(NotOwner, s, acts, t)
    ensures Reaches(NoStart, s, acts, t) && Reaches(Anything, s, acts, t) && t.owner == s.owner
            && t.desired == s.desired
    decreases |acts|
  {
    if acts != [] {
      match acts[0] {
        case Connector(c, opens) =>
        case Reader(r, input) =>
        case NewCall =>
        case Caller(j, choice) =>
      }
      OwnerStays(Apply(s, acts[0]), acts[1..], t);
    }
  }

  // The owner's steps in `stop` are no `start`.
  lemma OwnerGoesOn(s: State, m: State)
    requires Reachable(NoStart, s, m) && !m.owner.Idle?
    ensures Reachable(NoStart, s, Apply(m, Owner(false)))
  {
    ReachableKept(NoStart, s);
  }

  // A run, one step longer.
  lemma OneMore(acts: seq<Action>, s: State, a: Action)
    requires Reaches(Anything, INIT, acts, s) && Enabled(s, a)
    ensures Reaches(Anything, INIT, acts + [a], Apply(s, a))
  {
    assert [a][1..] == [] && Reaches(Anything, Apply(s, a), [], Apply(s, a));
    RunsCompose(Anything, INIT, acts, s, [a], Apply(s, a));
  }

  lemma {:induction false} OthersRun(s: State, acts: seq<Action>, t: State, i: nat)
    requires Inv(s) && i < |s.calls| && Reaches((s, a) => Others(i, s, a), s, acts, t)
    ensures Inv(t) && Untouched(s, t, i) && Reaches(Anything, s, acts, t)
    decreases |acts|
  {
    if acts != [] {
      InvKept();
      OthersLeaveCall(s, acts[0], i);
      OthersRun(Apply(s, acts[0]), acts[1..], t, i);
    }
  }

  // What is left of a call that got as far as an id.
  lemma EndedCall(acts: seq<Action>, t: State, i: nat)
    requires Reaches(Anything, INIT, acts, t)
    requires i < |t.calls| && t.calls[i].pc.Done? && !t.calls[i].pc.how.Refused?
    ensures t.calls[i].id < t.nextId && t.calls[i].id !in t.pending
    ensures t.calls[i].pc.how.Answered? ==> Genuine(t.stream, t.calls[i].pc.how.msg, t.calls[i].id)
  {
    InvHolds(acts, t);
    EndedIsNotPending(t, i);
    assert CallOk(t.calls[i], t.stream);
  }

  // What getting the reply, or giving up, does.
  lemma GetStep(s: State, i: nat, choice: Choice)
    requires Enabled(s, Caller(i, choice)) && s.calls[i].pc.Wait?
    ensures var c := s.calls[i];
            var how := if choice.Fail? then Aborted else if choice.Go? then Answered(c.slot.value) else TimedOut;
            CallerStep(s, i, choice)
                == s.(calls := s.calls[i := c.(pc := Unregister(how), slot := if choice.Go? then None else c.slot)])
  {
  }

  class PhdRpcBridge {
    var running: bool
    var desired: bool
    var sock: Option<nat>
    var file: Option<nat>
    var nextId: int
    var pending: map<int, nat>
    var owner: OwnerPc
    var connectors: seq<ConnectorPc>
    var readers: seq<ReaderPc>
    var calls: seq<Call>
    var connections: nat
    ghost var sent: set<int>
    ghost var stream: seq<Line>
    ghost var overlap: bool
    ghost var trace: seq<Action>  // every step since the bridge was made

    ghost function View(): State
      reads this
    {
      State(running, desired, sock, file, nextId, pending, owner, connectors, readers, calls, connections, sent,
          stream, overlap)
    }

    ghost predicate Valid()
      reads this
    {
      Reaches(Anything, INIT, trace, View())
    }

    // The bridge is one step further than it was in state s, after the steps `before`.
    ghost predicate Took(s: State, before: seq<Action>, a: Action)
      reads this
    {
      Valid() && Enabled(s, a) && View() == Apply(s, a) && trace == before + [a]
    }

    // Where call i is, among n calls.
    ghost predicate At(i: nat, n: nat, pc: CallerPc, id: int, next: int)
      reads this
    {
      i < |calls| == n && calls[i].pc == pc && calls[i].id == id && nextId == next
    }

    constructor ()
      ensures Valid() && View() == INIT && trace == []
    {
      running, desired, sock, file, nextId, pending := false, false, None, None, 1, map[];
      owner, connectors, readers, calls, connections := Idle, [], [], [], 0;
      sent, stream, overlap, trace := {}, [], false, [];
    }

    /** The other threads run for a while. A caller of this method learns only that they took some finite
        run of steps other than call i's; the body is the shortest one. */
    method Interference(ghost i: nat)
      requires Valid() && i < |calls|
      modifies this
      ensures Valid() && old(trace) <= trace
      ensures Reaches((s, a) => Others(i, s, a), old(View()), trace[|old(trace)|..], View())
    {
    }

    // The fields have been changed as action a says: keep the record.
    ghost method Note(s: State, a: Action)
      requires Reaches(Anything, INIT, trace, s) && Enabled(s, a) && View() == Step(s, a)
      modifies `overlap, `trace
      ensures Took(s, old(trace), a)
    {
      overlap, trace := Apply(s, a).overlap, trace + [a];
      OneMore(old(trace), s, a);
    }

    // The steps of `call`, each on the fields it touches.

    method Enter() returns (i: nat)
      requires Valid()
      modifies this
      ensures Took(old(View()), old(trace), NewCall) && i == |old(calls)|
      ensures At(i, old(|calls|) + 1, CheckRunning, 0, old(nextId))
    {
      ghost var s := View();
      i := |calls|;
      calls := calls + [FRESH_CALL];
      Note(s, NewCall);
    }

    method TestRunning(i: nat) returns (ok: bool)
      requires Valid() && i < |calls| && calls[i].pc.CheckRunning?
      modifies this
      ensures Took(old(View()), old(trace), Caller(i, Go))
      ensures ok == old(running)
      ensures At(i, old(|calls|), if ok then CheckFile else Done(Refused), old(calls)[i].id, old(nextId))
    {
      ghost var s := View();
      ok := running;
      calls := calls[i := calls[i].(pc := if ok then CheckFile else Done(Refused))];
      Note(s, Caller(i, Go));
    }

    method TestFile(i: nat) returns (ok: bool)
      requires Valid() && i < |calls| && calls[i].pc.CheckFile?
      modifies this
      ensures Took(old(View()), old(trace), Caller(i, Go))
      ensures ok == old(file).Some?
      ensures At(i, old(|calls|), if ok then TakeId else Done(Refused), old(calls)[i].id, old(nextId))
    {
      ghost var s := View();
      ok := file.Some?;
      calls := calls[i := calls[i].(pc := if ok then TakeId else Done(Refused))];
      Note(s, Caller(i, Go));
    }

    method NextRequestId(i: nat) returns (reqId: int)
      requires Valid() && i < |calls| && calls[i].pc.TakeId?
      modifies this
      ensures Took(old(View()), old(trace), Caller(i, Go))
      ensures reqId == old(nextId)
      ensures At(i, old(|calls|), BridgeMachine.Register, reqId, old(nextId) + 1)
    {
      ghost var s := View();
      reqId := nextId;
      nextId := nextId + 1;
      calls := calls[i := calls[i].(pc := BridgeMachine.Register, id := reqId)];
      Note(s, Caller(i, Go));
    }

    method Register(i: nat, reqId: int)
      requires Valid() && i < |calls| && calls[i].pc.Register? && calls[i].id == reqId
      modifies this
      ensures Took(old(View()), old(trace), Caller(i, Go))
      ensures At(i, old(|calls|), Send, old(calls)[i].id, old(nextId))
    {
      ghost var s := View();
      pending := pending[reqId := i];
      calls := calls[i := calls[i].(pc := Send)];
      Note(s, Caller(i, Go));
    }

    // The write may fail at any time, and does when there is no file.
    method Write(i: nat) returns (ok: bool)
      requires Valid() && i < |calls| && calls[i].pc.Send?
      modifies this
      ensures Took(old(View()), old(trace), Caller(i, if ok then Go else Fail))
      ensures At(i, old(|calls|), if ok then Wait else Unregister(Aborted), old(calls)[i].id, old(nextId))
    {
      ghost var s := View();
      ok := *;
      ok := ok && file.Some?;
      ghost var a := Caller(i, if ok then Go else Fail);
      if ok { sent := sent + {calls[i].id}; }
      calls := calls[i := calls[i].(pc := if ok then Wait else Unregister(Aborted))];
      Note(s, a);
    }

    // A reply that is there is taken, otherwise the wait ends with the timeout; a negative timeout raises at once.
    method Get(i: nat, negative: bool) returns (how: Exit)
      requires Valid() && i < |calls| && calls[i].pc.Wait?
      modifies this
      ensures Took(old(View()), old(trace),
              Caller(i, if negative then Fail else if old(calls)[i].slot.Some? then Go else Expire))
      ensures how == if negative then Aborted
                     else if old(calls)[i].slot.Some? then Answered(old(calls)[i].slot.value) else TimedOut
      ensures At(i, old(|calls|), Unregister(how), old(calls)[i].id, old(nextId))
    {
      ghost var s := View();
      var c := calls[i];
      ghost var a := Caller(i, if negative then Fail else if c.slot.Some? then Go else Expire);
      how := if negative then Aborted else if c.slot.Some? then Answered(c.slot.value) else TimedOut;
      calls := calls[i := c.(pc := Unregister(how), slot := if negative then c.slot else None)];
      GetStep(s, i, a.choice);
      Note(s, a);
    }

    method Pop(i: nat, reqId: int)
      requires Valid() && i < |calls| && calls[i].pc.Unregister? && calls[i].id == reqId
      modifies this
      ensures Took(old(View()), old(trace), Caller(i, Go))
      ensures At(i, old(|calls|), Done(old(calls)[i].pc.how), old(calls)[i].id, old(nextId))
    {
      ghost var s := View();
      pending := pending - {reqId};
      calls := calls[i := calls[i].(pc := Done(calls[i].pc.how))];
      Note(s, Caller(i, Go));
    }

    // A pause in call i, in which the others run.
    method Rest(ghost i: nat)
      requires Valid() && i < |calls|
      modifies this
      ensures Valid() && old(trace) <= trace && Untouched(old(View()), View(), i) && old(nextId) <= nextId
    {
      ghost var s, before := View(), trace;
      InvHolds(trace, View());
      Interference(i);
      OthersRun(s, trace[|before|..], View(), i);
      RunIsLater(s, trace[|before|..], View());
    }

    // Lines 121-122.
    method Admit(i: nat) returns (ok: bool)
      requires Valid() && i < |calls| && calls[i].pc.CheckRunning?
      modifies this
      ensures Valid() && old(trace) <= trace && old(nextId) <= nextId
      ensures i < |calls| && calls[i].pc == if ok then TakeId else Done(Refused)
    {
      Rest(i);
      ok := TestRunning(i);
      if ok {
        Rest(i);
        ok := TestFile(i);
      }
    }

    // Lines 124-131.
    method Enrol(i: nat) returns (reqId: int)
      requires Valid() && i < |calls| && calls[i].pc.TakeId?
      modifies this
      ensures Valid() && old(trace) <= trace && old(nextId) <= reqId < nextId
      ensures i < |calls| && calls[i].pc.Send? && calls[i].id == reqId
    {
      Rest(i);
      reqId := NextRequestId(i);
      Rest(i);
      Register(i, reqId);
    }

    // Lines 133-141: the try and its finally.
    method Exchange(i: nat, reqId: int, negative: bool) returns (how: Exit)
      requires Valid() && i < |calls| && calls[i].pc.Send? && calls[i].id == reqId
      modifies this
      ensures Valid() && old(trace) <= trace && old(nextId) <= nextId
      ensures i < |calls| && calls[i].pc == Done(how) && calls[i].id == reqId && !how.Refused?
    {
      Rest(i);
      how := Aborted;
      var ok := Write(i);
      if ok {
        Rest(i);
        how := Get(i, negative);
      }
      Rest(i);
      Pop(i, reqId);
    }

    /** `call` under arbitrary interference. Its steps and the others' form a run of the machine, so every
        theorem about runs applies to it. When it is over its id is out of the table, and when it returns
        or raises on a reply, that is a message the server sent for this very id. */
    method Call(negative: bool) returns (r: CallResult, ghost i: nat)
      requires Valid()
      modifies this
      ensures Valid() && old(trace) <= trace
      ensures old(|calls|) <= i < |calls| && calls[i].pc.Done?
      ensures r.NotConnected? <==> calls[i].pc.how.Refused?
      ensures r.Timeout? <==> calls[i].pc.how.TimedOut?
      ensures r.Failed? <==> calls[i].pc.how.Aborted?
      ensures !r.NotConnected? ==> old(nextId) <= calls[i].id < nextId && calls[i].id !in pending
      ensures r.Replied? ==> calls[i].pc.how.Answered?
                             && var m := calls[i].pc.how.msg;
                                && m.Object? && Parsed(m) in stream && Equals(m.id, calls[i].id)
                                && r.result == if m.error.Some? then Raised(m.error.value) else Returned(m.result)
    {
      var k := Enter();
      i := k;
      var ok := Admit(k);
      if !ok {
        return NotConnected, k;
      }
      var reqId := Enrol(k);
      var how := Exchange(k, reqId, negative);
      EndedCall(trace, View(), k);
      if how.Answered? { AnswersByEqualId(how.msg, reqId); }
      match how
      case Answered(m) => r := Replied(Meaning(m));
      case TimedOut => r := Timeout;
      case Aborted => r := Failed;
    }

    // ---------- the owner ----------

    // The other threads run while the owner pauses.
    method Meanwhile()
      requires Valid()
      modifies this
      ensures Valid() && old(trace) <= trace && owner == old(owner) && desired == old(desired)
      ensures Reaches(NotOwner, old(View()), trace[|old(trace)|..], View())
    {
    }

    method SetDesired(wanted: bool)
      requires Valid() && owner.Idle?
      modifies this
      ensures Took(old(View()), old(trace), Owner(wanted))
    {
      ghost var s := View();
      desired := wanted;
      owner := if wanted then StartSpawn else StopClear;
      Note(s, Owner(wanted));
    }

    method SpawnUnlessAlive()
      requires Valid() && owner.StartSpawn?
      modifies this
      ensures Took(old(View()), old(trace), Owner(true))
    {
      ghost var s := View();
      if connectors == [] || connectors[|connectors| - 1].Exited? {
        connectors := connectors + [TestDesired];
      }
      owner := Idle;
      Note(s, Owner(true));
    }

    method ClearRunning()
      requires Valid() && owner.StopClear?
      modifies this
      ensures Took(old(View()), old(trace), Owner(false)) && owner.StopDropFile?
    {
      ghost var s := View();
      running, owner := false, StopDropFile;
      Note(s, Owner(false));
    }

    method DropFile()
      requires Valid() && owner.StopDropFile?
      modifies this
      ensures Took(old(View()), old(trace), Owner(false)) && owner.StopDropSock?
    {
      ghost var s := View();
      file, owner := None, StopDropSock;
      Note(s, Owner(false));
    }

    method DropSock()
      requires Valid() && owner.StopDropSock?
      modifies this
      ensures Took(old(View()), old(trace), Owner(false)) && owner.Idle?
    {
      ghost var s := View();
      sock, owner := None, Idle;
      Note(s, Owner(false));
    }

    /** `start`: a connector is at work afterwards, unless the previous one was found leaving. */
    method Start()
      requires Valid() && owner.Idle?
      modifies this
      ensures Valid() && old(trace) < trace && owner.Idle? && desired
      ensures ConnectorAtWork(View()) || (connectors != [] && connectors[|connectors| - 1].Leaving?)
    {
      SetDesired(true);
      Meanwhile();
      ghost var s, before := View(), trace;
      SpawnUnlessAlive();
      StartIsLostIff(before, s, true);
    }

    /** `stop`: unless the connector was on its way to a new connection when `_desired_running` was cleared,
        the bridge is disconnected afterwards, whatever the other threads did meanwhile. */
    method Stop()
      requires Valid() && owner.Idle?
      modifies this
      ensures Valid() && old(trace) < trace && owner.Idle? && !desired
      ensures !Committed(Newest(old(connectors))) ==> !running && sock.None? && file.None?
    {
      SetDesired(false);
      ghost var s, before := View(), trace;
      Disconnect(s);
      StopDisconnectsIff(before, s);
    }

    // Lines 48-49, from state s on.
    method Disconnect(ghost s: State)
      requires Valid() && owner.StopClear? && View() == s
      modifies this
      ensures Valid() && old(trace) <= trace && owner.Idle? && desired == old(desired)
      ensures Reachable(NoStart, s, View())
    {
      assert Reaches(NoStart, s, [], s);
      Pause(s);
      OwnerGoesOn(s, View());
      ClearRunning();
      CloseSocket(s);
    }

    method CloseSocket(ghost s: State)
      requires Valid() && owner.StopDropFile? && Reachable(NoStart, s, View())
      modifies this
      ensures Valid() && old(trace) <= trace && owner.Idle? && desired == old(desired)
      ensures Reachable(NoStart, s, View())
    {
      Pause(s);
      OwnerGoesOn(s, View());
      DropFile();
      Pause(s);
      OwnerGoesOn(s, View());
      DropSock();
    }

    // A pause in `stop`.
    method Pause(ghost s: State)
      requires Valid() && Reachable(NoStart, s, View())
      modifies this
      ensures Valid() && old(trace) <= trace && owner == old(owner) && desired == old(desired)
      ensures Reachable(NoStart, s, View())
    {
      ghost var m, before := View(), trace;
      Meanwhile();
      OwnerStays(m, trace[|before|..], View());
      ghost var acts :| Reaches(NoStart, s, acts, m);
      RunsCompose(NoStart, s, acts, m, trace[|before|..], View());
    }
  }
}
