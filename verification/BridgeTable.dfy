/** The table of pending requests: which call a reply reaches, over every interleaving of callers,
    readers, timeouts, failed writes and reconnects. */
module BridgeTable {
  import opened Wrappers
  import opened JsonRpc
  import opened BridgeMachine

  // The call has been given a request id.
  predicate HasId(pc: CallerPc) {
    match pc
    case CheckRunning => false
    case CheckFile => false
    case TakeId => false
    case Done(how) => !how.Refused?
    case _ => true
  }

  // Between registration and the end of the finally block.
  predicate InTable(pc: CallerPc) { pc.Send? || pc.Wait? || pc.Unregister? }

  function ExitOf(pc: CallerPc): Option<Exit> {
    match pc
    case Unregister(how) => Some(how)
    case Done(how) => Some(how)
    case _ => None
  }

  ghost predicate IdsOk(calls: seq<Call>, nextId: int) {
    && 1 <= nextId
    && (forall i :: 0 <= i < |calls| && HasId(calls[i].pc) ==> 1 <= calls[i].id < nextId)
    && (forall i, j :: 0 <= i < j < |calls| && HasId(calls[i].pc) && HasId(calls[j].pc) ==> calls[i].id != calls[j].id)
    && (forall i :: 0 <= i < |calls| ==> calls[i].pc != Unregister(Refused))
  }

  ghost predicate TableOk(calls: seq<Call>, pending: map<int, nat>) {
    && (forall i :: 0 <= i < |calls| && InTable(calls[i].pc) ==> calls[i].id in pending && pending[calls[i].id] == i)
    && (forall k :: k in pending ==> pending[k] < |calls| && InTable(calls[pending[k]].pc) && calls[pending[k]].id == k)
  }

  // m is a message some reader took off the wire, and it answers request k.
  ghost predicate Genuine(stream: seq<Line>, m: Json, k: int) {
    Answers(m, k) && Parsed(m) in stream
  }

  // Whatever a call holds or ended with is a genuine reply to it.
  ghost predicate CallOk(c: Call, stream: seq<Line>) {
    && (c.slot.Some? ==> HasId(c.pc) && Genuine(stream, c.slot.value, c.id))
    && (ExitOf(c.pc).Some? && ExitOf(c.pc).value.Answered? ==> Genuine(stream, ExitOf(c.pc).value.msg, c.id))
  }

  ghost predicate ReaderOk(pc: ReaderPc, calls: seq<Call>, stream: seq<Line>) {
    && (pc.Put? ==> pc.call < |calls| && HasId(calls[pc.call].pc) && Genuine(stream, pc.msg, calls[pc.call].id))
    && (pc.Lookup? ==> Parsed(pc.msg) in stream)
  }

  ghost predicate RepliesOk(calls: seq<Call>, readers: seq<ReaderPc>, stream: seq<Line>) {
    && (forall i :: 0 <= i < |calls| ==> CallOk(calls[i], stream))
    && (forall r :: 0 <= r < |readers| ==> ReaderOk(readers[r], calls, stream))
  }

  ghost predicate Inv(s: State) {
    IdsOk(s.calls, s.nextId) && TableOk(s.calls, s.pending) && RepliesOk(s.calls, s.readers, s.stream)
  }

  // A call keeps the id it has.
  ghost predicate SameId(c: Call, d: Call) {
    HasId(c.pc) ==> HasId(d.pc) && d.id == c.id
  }

  // ---------- what replacing one call does to the three parts ----------

  lemma ReplaceIds(calls: seq<Call>, nextId: int, i: nat, c: Call, nextId': int)
    requires IdsOk(calls, nextId) && i < |calls| && nextId <= nextId' && c.pc != Unregister(Refused)
    requires HasId(c.pc) ==> (HasId(calls[i].pc) && c.id == calls[i].id) || nextId <= c.id < nextId'
    ensures IdsOk(calls[i := c], nextId')
  {
  }

  lemma ReplaceInside(calls: seq<Call>, pending: map<int, nat>, i: nat, c: Call)
    requires TableOk(calls, pending) && i < |calls|
    requires InTable(c.pc) == InTable(calls[i].pc) && (InTable(c.pc) ==> c.id == calls[i].id)
    ensures TableOk(calls[i := c], pending)
  {
  }

  lemma ReplaceEnter(calls: seq<Call>, pending: map<int, nat>, nextId: int, i: nat, c: Call)
    requires TableOk(calls, pending) && IdsOk(calls, nextId) && i < |calls|
    requires HasId(calls[i].pc) && !InTable(calls[i].pc) && InTable(c.pc) && c.id == calls[i].id
    ensures TableOk(calls[i := c], pending[c.id := i])
  {
    var calls', pending' := calls[i := c], pending[c.id := i];
    forall j | 0 <= j < |calls'| && InTable(calls'[j].pc)
      ensures calls'[j].id in pending' && pending'[calls'[j].id] == j
    {
      if j != i {
        assert calls'[j] == calls[j];
        assert HasId(calls[j].pc);
      }
    }
  }

  lemma ReplaceLeave(calls: seq<Call>, pending: map<int, nat>, nextId: int, i: nat, c: Call)
    requires TableOk(calls, pending) && IdsOk(calls, nextId) && i < |calls|
    requires InTable(calls[i].pc) && !InTable(c.pc)
    ensures TableOk(calls[i := c], pending - {calls[i].id})
  {
    var calls', pending' := calls[i := c], pending - {calls[i].id};
    forall j | 0 <= j < |calls'| && InTable(calls'[j].pc)
      ensures calls'[j].id in pending' && pending'[calls'[j].id] == j
    {
      assert calls'[j] == calls[j];
      assert HasId(calls[j].pc) && HasId(calls[i].pc);
    }
  }

  lemma ReplaceReplies(calls: seq<Call>, readers: seq<ReaderPc>, stream: seq<Line>, i: nat, c: Call)
    requires RepliesOk(calls, readers, stream) && i < |calls| && CallOk(c, stream) && SameId(calls[i], c)
    ensures RepliesOk(calls[i := c], readers, stream)
  {
    forall r | 0 <= r < |readers| ensures ReaderOk(readers[r], calls[i := c], stream) {
    }
  }

  lemma CallerKeepsTable(s: State, i: nat, choice: Choice)
    requires Inv(s) && Enabled(s, Caller(i, choice))
    ensures TableOk(CallerStep(s, i, choice).calls, CallerStep(s, i, choice).pending)
  {
    var t := CallerStep(s, i, choice);
    var c := t.calls[i];
    if s.calls[i].pc.Register? {
      ReplaceEnter(s.calls, s.pending, s.nextId, i, c);
    } else if s.calls[i].pc.Unregister? {
      ReplaceLeave(s.calls, s.pending, s.nextId, i, c);
    } else {
      ReplaceInside(s.calls, s.pending, i, c);
    }
  }

  lemma CallerKeepsReplies(s: State, i: nat, choice: Choice)
    requires Inv(s) && Enabled(s, Caller(i, choice))
    ensures RepliesOk(CallerStep(s, i, choice).calls, s.readers, s.stream)
  {
    var t := CallerStep(s, i, choice);
    assert CallOk(s.calls[i], s.stream);
    ReplaceReplies(s.calls, s.readers, s.stream, i, t.calls[i]);
  }

  lemma CallerKeepsInv(s: State, i: nat, choice: Choice)
    requires Inv(s) && Enabled(s, Caller(i, choice))
    ensures Inv(CallerStep(s, i, choice))
  {
    var t := CallerStep(s, i, choice);
    ReplaceIds(s.calls, s.nextId, i, t.calls[i], t.nextId);
    CallerKeepsReplies(s, i, choice);
    CallerKeepsTable(s, i, choice);
  }

  // ---------- what a reader's step does ----------

  lemma MoveReader(calls: seq<Call>, readers: seq<ReaderPc>, stream: seq<Line>, r: nat, pc: ReaderPc, more: seq<Line>)
    requires RepliesOk(calls, readers, stream) && r < |readers| && stream <= more && ReaderOk(pc, calls, more)
    ensures RepliesOk(calls, readers[r := pc], more)
  {
    var readers' := readers[r := pc];
    forall q | 0 <= q < |readers'| ensures ReaderOk(readers'[q], calls, more) {
      assert ReaderOk(readers[q], calls, stream);
    }
    forall i | 0 <= i < |calls| ensures CallOk(calls[i], more) {
      assert CallOk(calls[i], stream);
    }
  }

  lemma FillKeepsInv(s: State, r: nat, input: Input)
    requires Inv(s) && Enabled(s, Reader(r, input)) && s.readers[r].Put?
    ensures Inv(ReaderStep(s, r, input))
  {
    var q, m := s.readers[r].call, s.readers[r].msg;
    var c := s.calls[q].(slot := Some(m));
    assert ReaderOk(s.readers[r], s.calls, s.stream);
    assert CallOk(s.calls[q], s.stream);
    ReplaceIds(s.calls, s.nextId, q, c, s.nextId);
    ReplaceInside(s.calls, s.pending, q, c);
    ReplaceReplies(s.calls, s.readers, s.stream, q, c);
    MoveReader(s.calls[q := c], s.readers, s.stream, r, ReadRunning, s.stream);
  }

  lemma ReaderStaysOk(s: State, r: nat, input: Input)
    requires Inv(s) && Enabled(s, Reader(r, input)) && !s.readers[r].Put?
    ensures ReaderOk(ReaderStep(s, r, input).readers[r], s.calls, ReaderStep(s, r, input).stream)
  {
    assert ReaderOk(s.readers[r], s.calls, s.stream);
    if s.readers[r].ReadLine? && input.Got? {
      assert (s.stream + [input.line])[|s.stream|] == input.line;
    }
  }

  lemma ReaderKeepsInv(s: State, r: nat, input: Input)
    requires Inv(s) && Enabled(s, Reader(r, input))
    ensures Inv(ReaderStep(s, r, input))
  {
    if s.readers[r].Put? {
      FillKeepsInv(s, r, input);
    } else {
      ReaderStaysOk(s, r, input);
      var t := ReaderStep(s, r, input);
      MoveReader(s.calls, s.readers, s.stream, r, t.readers[r], t.stream);
    }
  }

  lemma AddingKeepsInv(s: State, t: State)
    requires Inv(s) && t.nextId == s.nextId && t.pending == s.pending && t.stream == s.stream
    requires t.calls == s.calls || t.calls == s.calls + [FRESH_CALL]
    requires t.readers == s.readers || t.readers == s.readers + [ReadRunning]
    ensures Inv(t)
  {
    forall r | 0 <= r < |t.readers| ensures ReaderOk(t.readers[r], t.calls, t.stream) {
      assert r < |s.readers| ==> ReaderOk(s.readers[r], s.calls, s.stream);
    }
  }

  lemma StepKeepsInv(s: State, a: Action)
    requires Inv(s) && Enabled(s, a)
    ensures Inv(Step(s, a))
  {
    match a
    case Owner(start) => AddingKeepsInv(s, OwnerStep(s, start));
    case Connector(c, opens) => AddingKeepsInv(s, ConnectorStep(s, c, opens));
    case Reader(r, input) => ReaderKeepsInv(s, r, input);
    case NewCall => AddingKeepsInv(s, Step(s, a));
    case Caller(i, choice) => CallerKeepsInv(s, i, choice);
  }

  lemma InvKept()
    ensures Keeps(Anything, Inv)
  {
    forall s, a | Inv(s) && Enabled(s, a) && Anything(s, a) ensures Inv(Apply(s, a)) {
      StepKeepsInv(s, a);
    }
  }

  lemma InvHolds(acts: seq<Action>, t: State)
    requires Reaches(Anything, INIT, acts, t)
    ensures Inv(t)
  {
    InvKept();
    KeptOverRuns(Anything, Inv, INIT, acts, t);
  }

  // ---------- a call is never forgotten, its id and its end never change ----------

  // A call in one state and the same call later on; ids given out in between are at least `from`.
  ghost predicate Follows(c: Call, d: Call, from: int) {
    && SameId(c, d)
    && (c.pc.Done? ==> d.pc == c.pc)
    && (HasId(d.pc) && !HasId(c.pc) ==> from <= d.id)
  }

  ghost predicate Later(s: State, t: State) {
    && |s.calls| <= |t.calls| && s.nextId <= t.nextId
    && (forall i :: 0 <= i < |s.calls| ==> Follows(s.calls[i], t.calls[i], s.nextId))
    && (forall i :: |s.calls| <= i < |t.calls| && HasId(t.calls[i].pc) ==> s.nextId <= t.calls[i].id)
  }

  lemma StepIsLater(s: State, a: Action)
    requires Inv(s) && Enabled(s, a)
    ensures Later(s, Apply(s, a))
  {
    match a
    case Owner(start) =>
    case Connector(c, opens) =>
    case Reader(r, input) =>
    case NewCall =>
    case Caller(i, choice) => CallerFollows(s, i, choice);
  }

  lemma CallerFollows(s: State, i: nat, choice: Choice)
    requires Inv(s) && Enabled(s, Caller(i, choice))
    ensures Later(s, CallerStep(s, i, choice))
  {
    var t := CallerStep(s, i, choice);
    assert Follows(s.calls[i], t.calls[i], s.nextId);
  }

  lemma {:induction false} RunIsLater(s: State, acts: seq<Action>, t: State)
    requires Inv(s) && Reaches(Anything, s, acts, t)
    ensures Inv(t) && Later(s, t)
    decreases |acts|
  {
    if acts != [] {
      InvKept();
      StepIsLater(s, acts[0]);
      RunIsLater(Apply(s, acts[0]), acts[1..], t);
    }
  }

  lemma EndedIsNotPending(t: State, i: nat)
    requires Inv(t) && i < |t.calls| && t.calls[i].pc.Done? && HasId(t.calls[i].pc)
    ensures t.calls[i].id !in t.pending
  {
    if t.calls[i].id in t.pending {
      assert HasId(t.calls[t.pending[t.calls[i].id]].pc);
    }
  }

  // ---------- theorems ----------

  /** Ids are never reused over the bridge's life, reconnects included: two calls never share one, and
      every id handed out later is larger than every id handed out before. */
  lemma IdsNeverReused(a1: seq<Action>, s: State, a2: seq<Action>, t: State)
    requires Reaches(Anything, INIT, a1, s) && Reaches(Anything, s, a2, t)
    ensures forall i, j :: 0 <= i < j < |t.calls| && HasId(t.calls[i].pc) && HasId(t.calls[j].pc) ==>
                t.calls[i].id != t.calls[j].id
    ensures |s.calls| <= |t.calls|
    ensures forall i :: 0 <= i < |s.calls| && HasId(s.calls[i].pc) ==> t.calls[i].id == s.calls[i].id < s.nextId
    ensures forall j :: 0 <= j < |t.calls| && HasId(t.calls[j].pc) && (j >= |s.calls| || !HasId(s.calls[j].pc)) ==>
                s.nextId <= t.calls[j].id
  {
    InvHolds(a1, s);
    RunIsLater(s, a2, t);
  }

  /** The table's keys are exactly the ids of the calls between registration and their finally block,
      however they end, and each key leads to its own call's queue. */
  lemma PendingTableIsExact(acts: seq<Action>, t: State)
    requires Reaches(Anything, INIT, acts, t)
    ensures t.pending.Keys == set i | 0 <= i < |t.calls| && InTable(t.calls[i].pc) :: t.calls[i].id
    ensures forall i :: 0 <= i < |t.calls| && InTable(t.calls[i].pc) ==>
              t.calls[i].id in t.pending && t.pending[t.calls[i].id] == i
    ensures (forall i :: 0 <= i < |t.calls| ==> t.calls[i].pc.Done?) ==> t.pending == map[]
  {
    InvHolds(acts, t);
    var ids := set i | 0 <= i < |t.calls| && InTable(t.calls[i].pc) :: t.calls[i].id;
    forall k | k in t.pending ensures k in ids {
      assert InTable(t.calls[t.pending[k]].pc);
    }
  }

  /** A call that returns or raises on a reply got a message the server sent whose id is this call's
      integer, or what Python takes to be equal to it (ids are never 0, so `false` is no call's), and no
      other call's. */
  lemma RepliesReachTheirOwnCall(acts: seq<Action>, t: State, i: nat, m: Json)
    requires Reaches(Anything, INIT, acts, t)
    requires i < |t.calls| && t.calls[i].pc == Done(Answered(m))
    ensures m.Object? && Parsed(m) in t.stream
    ensures var k := t.calls[i].id;
            m.id == Some(IntId(k)) || m.id == Some(FloatId(k)) || (k == 1 && m.id == Some(BoolId(true)))
    ensures forall j :: 0 <= j < |t.calls| && j != i && HasId(t.calls[j].pc) ==>
              m.id != Some(IntId(t.calls[j].id)) && m.id != Some(FloatId(t.calls[j].id))
              && (t.calls[j].id == 1 ==> m.id != Some(BoolId(true)))
  {
    InvHolds(acts, t);
    assert CallOk(t.calls[i], t.stream);
    AnswersByEqualId(m, t.calls[i].id);
  }

  // Where a message with this id goes, by the table.
  function Target(pending: map<int, nat>, m: Json, k: int): ReaderPc {
    if k in pending then Put(pending[k], m) else ReadRunning
  }

  /** Which messages are looked up, and where they go: a line that holds an object with an id is, an event
      with an id too, and nothing else; an integer, or a float of its value, goes to the call the table has
      under that integer, `true` to that of 1, any other id to nobody, and an unhashable one ends the
      reader. */
  lemma RepliesGoById(acts: seq<Action>, t: State, r: nat, line: Line, m: Json)
    requires Reaches(Anything, INIT, acts, t) && r < |t.readers|
    ensures t.readers[r].ReadLine? ==>
              (ReaderStep(t, r, Got(line)).readers[r] == Lookup(m) <==> line == Parsed(m) && m.Object? && m.id != None)
    ensures t.readers[r] == Lookup(m) && m.Object? && m.id.Some? ==>
              var next := ReaderStep(t, r, Got(line)).readers[r];
              match m.id.value
              case IntId(n) => next == Target(t.pending, m, n)
              case FloatId(n) => next == Target(t.pending, m, n)
              case BoolId(b) => next == if b then Target(t.pending, m, 1) else ReadRunning
              case Scalar => next == ReadRunning
              case Nested => next == ClearRunning
  {
    if t.readers[r].ReadLine? {
      RepliesAreLookedUp(t, m, line);
    } else if t.readers[r] == Lookup(m) && m.Object? && m.id.Some? {
      assert 0 !in t.pending by {
        InvHolds(acts, t);
        KeysArePositive(t);
      }
      LookedUp(t, m, Got(line));
    }
  }

  lemma RepliesAreLookedUp(s: State, m: Json, line: Line)
    ensures AfterReader(s, ReadLine, Got(line)) == Lookup(m) <==> line == Parsed(m) && m.Object? && m.id != None
  {
  }

  lemma LookedUp(s: State, m: Json, input: Input)
    requires m.Object? && m.id.Some? && 0 !in s.pending
    ensures var next := AfterReader(s, Lookup(m), input);
            match m.id.value
            case IntId(n) => next == Target(s.pending, m, n)
            case FloatId(n) => next == Target(s.pending, m, n)
            case BoolId(b) => next == if b then Target(s.pending, m, 1) else ReadRunning
            case Scalar => next == ReadRunning
            case Nested => next == ClearRunning
  {
  }

  lemma KeysArePositive(s: State)
    requires Inv(s)
    ensures forall k :: k in s.pending ==> k >= 1
  {
    forall k | k in s.pending ensures k >= 1 {
      assert HasId(s.calls[s.pending[k]].pc);
    }
  }

  /** Once a call has ended, no reply to it reaches anybody: its own outcome is settled, no other call
      is ever answered by such a message, no other call's queue ever holds one. */
  lemma LateRepliesReachNobody(a1: seq<Action>, s: State, i: nat, a2: seq<Action>, t: State)
    requires Reaches(Anything, INIT, a1, s)
    requires i < |s.calls| && s.calls[i].pc.Done? && HasId(s.calls[i].pc)
    requires Reaches(Anything, s, a2, t)
    ensures i < |t.calls| && t.calls[i].pc == s.calls[i].pc
    ensures NobodyElseAnswered(t, i, s.calls[i].id)
  {
    InvHolds(a1, s);
    RunIsLater(s, a2, t);
    EndedStays(s, t, i);
    OnlyOneAnswered(t, i);
  }

  // No call but i has been answered by a reply to request k, nor holds one.
  ghost predicate NobodyElseAnswered(t: State, i: nat, k: int) {
    forall j, m :: 0 <= j < |t.calls| && j != i && Answers(m, k) ==>
          t.calls[j].pc != Done(Answered(m)) && t.calls[j].slot != Some(m)
  }

  lemma EndedStays(s: State, t: State, i: nat)
    requires Later(s, t) && i < |s.calls| && s.calls[i].pc.Done? && HasId(s.calls[i].pc)
    ensures i < |t.calls| && t.calls[i].pc == s.calls[i].pc && t.calls[i].id == s.calls[i].id
  {
    assert Follows(s.calls[i], t.calls[i], s.nextId);
  }

  lemma OnlyOneAnswered(t: State, i: nat)
    requires Inv(t) && i < |t.calls| && HasId(t.calls[i].pc)
    ensures NobodyElseAnswered(t, i, t.calls[i].id)
  {
    forall j, m | 0 <= j < |t.calls| && j != i && Answers(m, t.calls[i].id)
      ensures t.calls[j].pc != Done(Answered(m)) && t.calls[j].slot != Some(m)
    {
      assert CallOk(t.calls[j], t.stream);
    }
  }

  /** Nor is it put into any queue: the reader that looks it up throws it away. */
  lemma LateRepliesAreDiscarded(acts: seq<Action>, t: State, i: nat, r: nat, input: Input)
    requires Reaches(Anything, INIT, acts, t)
    requires i < |t.calls| && t.calls[i].pc.Done? && HasId(t.calls[i].pc)
    requires r < |t.readers| && t.readers[r].Lookup? && Answers(t.readers[r].msg, t.calls[i].id)
    ensures ReaderStep(t, r, input) == WithReader(t, r, ReadRunning)
  {
    InvHolds(acts, t);
    EndedIsNotPending(t, i);
  }
}
