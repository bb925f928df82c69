/** With one caller at a time the bridge does what the sequential client does. */
module BridgeRefinement {
  import opened Wrappers
  import opened JsonRpc
  import opened BridgeMachine
  import opened BridgeTable
  import opened BridgeDelivery
  import RpcClient

  /** One caller, no timeout, no failed write, no disconnect; the server answers only what it was sent.
      It may send anything else, malformed lines and repeated replies included, and the threads may
      interleave as they like. */
  ghost predicate SingleCaller(s: State, a: Action) {
    && Causal(s, a)
    && match a
       case Owner(start) => start || !s.owner.Idle?
       case Connector(_, _) => true
       case Reader(r, input) => input.Got? && r < |s.readers| && !s.readers[r].ClearRunning?
       case NewCall => forall i :: 0 <= i < |s.calls| ==> s.calls[i].pc.Done?
       case Caller(_, choice) => choice.Go?
  }

  // Connected, one reader, nothing on its way to being connected or closed.
  ghost predicate Live(s: State) {
    && s.running && s.file.Some? && (s.owner.Idle? || s.owner.StartSpawn?)
    && |s.readers| == 1
    && (s.readers[0].ReadRunning? || s.readers[0].ReadFile? || s.readers[0].LoadFile? || s.readers[0].ReadLine?
        || s.readers[0].Lookup? || s.readers[0].Put? || s.readers[0].ClearRunning?)
    && (forall c :: 0 <= c < |s.connectors| ==> var pc := s.connectors[c];
          pc.TestDesired? || pc.TestRunning? || pc.Lock? || pc.Recheck? || pc.Leaving? || pc.Exited?)
  }

  /** The bridge has just connected and its reader waits for the first line. */
  ghost predicate JustConnected(s: State) {
    && Live(s) && s.readers == [ReadLine] && s.calls == [] && s.pending == map[]
    && s.nextId == 1 && s.sent == {} && s.stream == []
  }

  // Calls come one after the other and get the ids 1, 2, 3, ...
  ghost predicate Serial(calls: seq<Call>, nextId: int) {
    && (forall i :: 0 <= i < |calls| - 1 ==> calls[i].pc.Done?)
    && (forall i :: 0 <= i < |calls| && HasId(calls[i].pc) ==> calls[i].id == i + 1)
    && (forall i :: 0 <= i < |calls| && calls[i].pc.Done? ==> HasId(calls[i].pc))
    && nextId == if calls != [] && HasId(calls[|calls| - 1].pc) then |calls| + 1 else if calls == [] then 1 else |calls|
  }

  function First(stream: seq<Line>, k: int): nat { RpcClient.FirstAnswer(stream, k) }

  // Where the reply to call c, number i, is: at the call, in its queue, or with the reader.
  ghost predicate Delivered(c: Call, i: nat, reader: ReaderPc, stream: seq<Line>) {
    var f := First(stream, c.id);
    if ExitOf(c.pc).Some? then f < |stream| && ExitOf(c.pc) == Some(Answered(stream[f].msg))
    else if f == |stream| then c.slot.None?
    else c.slot == Some(stream[f].msg)
         || (c.slot.None? && (reader == Lookup(stream[f].msg) || reader == Put(i, stream[f].msg)))
  }

  // A reply to a request comes after a reply to the one before.
  ghost predicate OrderedAt(stream: seq<Line>, k: int) {
    2 <= k && First(stream, k) < |stream| ==> First(stream, k - 1) < First(stream, k)
  }

  ghost predicate Ordered(stream: seq<Line>) {
    forall k :: OrderedAt(stream, k)
  }

  ghost predicate AllDelivered(calls: seq<Call>, reader: ReaderPc, stream: seq<Line>) {
    forall i :: 0 <= i < |calls| && HasId(calls[i].pc) ==> Delivered(calls[i], i, reader, stream)
  }

  ghost predicate SerialInv(s: State) {
    && CausalInv(s) && Live(s) && Serial(s.calls, s.nextId) && Ordered(s.stream)
    && AllDelivered(s.calls, s.readers[0], s.stream)
  }

  // ---------- steps ----------

  lemma LiveStep(s: State, a: Action)
    requires Live(s) && Enabled(s, a) && SingleCaller(s, a)
    ensures Live(Step(s, a))
  {
    match a
    case Owner(start) =>
    case Connector(c, opens) =>
    case Reader(r, input) =>
    case NewCall =>
    case Caller(i, choice) =>
  }

  lemma FirstGrows(stream: seq<Line>, l: Line, k: int)
    ensures First(stream + [l], k) ==
              if First(stream, k) < |stream| || LineAnswers(l, k) then First(stream, k) else |stream| + 1
  {
    var f, g, s := First(stream, k), First(stream + [l], k), stream + [l];
    assert forall j :: 0 <= j < |stream| ==> s[j] == stream[j];
    assert s[|stream|] == l;
    if f < |stream| {
      assert LineAnswers(s[f], k);
    }
  }

  lemma UnsentIsUnheard(s: State, i: nat)
    requires CausalInv(s) && i < |s.calls| && HasId(s.calls[i].pc) && !PastSend(s.calls[i].pc)
    ensures First(s.stream, s.calls[i].id) == |s.stream|
  {
    var k := s.calls[i].id;
    if First(s.stream, k) < |s.stream| {
      var j := SentBy(s, k);
    }
  }

  lemma CallBefore(calls: seq<Call>, nextId: int, i: nat)
    requires Serial(calls, nextId) && i < |calls| && HasId(calls[i].pc) && calls[i].id >= 2
    ensures i >= 1 && calls[i - 1].pc.Done? && HasId(calls[i - 1].pc) && calls[i - 1].id == calls[i].id - 1
  {
  }

  lemma CallBeforeAnswered(calls: seq<Call>, nextId: int, reader: ReaderPc, stream: seq<Line>, i: nat)
    requires Serial(calls, nextId) && AllDelivered(calls, reader, stream)
    requires i < |calls| && HasId(calls[i].pc) && calls[i].id >= 2
    ensures First(stream, calls[i].id - 1) < |stream|
  {
    CallBefore(calls, nextId, i);
    assert Delivered(calls[i - 1], i - 1, reader, stream);
  }

  lemma SentCall(s: State, k: int) returns (i: nat)
    requires CausalInv(s) && k in s.sent
    ensures i < |s.calls| && HasId(s.calls[i].pc) && s.calls[i].id == k
  {
    i :| 0 <= i < |s.calls| && s.calls[i].id == k && PastSend(s.calls[i].pc);
    assert s.calls[i].pc != Unregister(Refused);
  }

  // A line for request k is read only after the reply to request k - 1.
  lemma AnsweredBefore(s: State, k: int)
    requires SerialInv(s) && 2 <= k && k in s.sent
    ensures First(s.stream, k - 1) < |s.stream|
  {
    var i := SentCall(s, k);
    CallBeforeAnswered(s.calls, s.nextId, s.readers[0], s.stream, i);
  }

  lemma OrderedGrows(s: State, l: Line)
    requires SerialInv(s) && forall k :: LineAnswers(l, k) ==> k in s.sent
    ensures Ordered(s.stream + [l])
  {
    var t := s.stream + [l];
    forall k ensures OrderedAt(t, k) {
      FirstGrows(s.stream, l, k - 1);
      FirstGrows(s.stream, l, k);
      assert OrderedAt(s.stream, k);
      if 2 <= k && First(s.stream, k) == |s.stream| && LineAnswers(l, k) { AnsweredBefore(s, k); }
    }
  }

  lemma ReadingDelivers(s: State, i: nat, l: Line, reader: ReaderPc)
    requires SerialInv(s) && i < |s.calls| && HasId(s.calls[i].pc) && s.readers[0].ReadLine?
    requires LineAnswers(l, s.calls[i].id) ==> reader == Lookup(l.msg)
    ensures Delivered(s.calls[i], i, reader, s.stream + [l])
  {
    FirstGrows(s.stream, l, s.calls[i].id);
    assert Delivered(s.calls[i], i, s.readers[0], s.stream);
  }

  // The reader on its way from the lookup into the queue.
  lemma CarryingDelivers(s: State, i: nat, input: Input)
    requires SerialInv(s) && i < |s.calls| && HasId(s.calls[i].pc)
    requires Enabled(s, Reader(0, input)) && !s.readers[0].ReadLine? && !s.readers[0].Put?
    ensures Delivered(s.calls[i], i, ReaderStep(s, 0, input).readers[0], s.stream)
  {
    assert Delivered(s.calls[i], i, s.readers[0], s.stream);
    var f := First(s.stream, s.calls[i].id);
    if ExitOf(s.calls[i].pc).None? && f < |s.stream| && s.calls[i].slot.None? {
      if !PastSend(s.calls[i].pc) { UnsentIsUnheard(s, i); }
      assert InTable(s.calls[i].pc);
    }
  }

  lemma FillingDelivers(s: State, i: nat, input: Input)
    requires SerialInv(s) && i < |s.calls| && HasId(s.calls[i].pc)
    requires Enabled(s, Reader(0, input)) && s.readers[0].Put?
    ensures Delivered(ReaderStep(s, 0, input).calls[i], i, ReadRunning, s.stream)
  {
    var q, m := s.readers[0].call, s.readers[0].msg;
    assert Delivered(s.calls[i], i, s.readers[0], s.stream);
    assert ReaderOk(s.readers[0], s.calls, s.stream);
    if i == q {
      var f := First(s.stream, s.calls[i].id);
      assert f < |s.stream| by { assert LineAnswers(Parsed(m), s.calls[i].id); }
    }
  }

  lemma ReaderKeepsOrder(s: State, input: Input)
    requires SerialInv(s) && Enabled(s, Reader(0, input)) && SingleCaller(s, Reader(0, input))
    ensures Ordered(ReaderStep(s, 0, input).stream)
  {
    if s.readers[0].ReadLine? {
      forall k | LineAnswers(input.line, k) ensures k in s.sent {
        assert IncomingKey(s, Reader(0, input)) == Some(k);
      }
      OrderedGrows(s, input.line);
    }
  }

  lemma ReaderKeepsSerial(s: State, input: Input)
    requires Serial(s.calls, s.nextId) && Enabled(s, Reader(0, input))
    ensures Serial(ReaderStep(s, 0, input).calls, ReaderStep(s, 0, input).nextId)
  {
  }

  lemma ReaderDelivers(s: State, input: Input)
    requires SerialInv(s) && Enabled(s, Reader(0, input)) && SingleCaller(s, Reader(0, input))
    ensures var t := ReaderStep(s, 0, input); |t.readers| == 1 && AllDelivered(t.calls, t.readers[0], t.stream)
  {
    var t := ReaderStep(s, 0, input);
    forall i | 0 <= i < |t.calls| && HasId(t.calls[i].pc) ensures Delivered(t.calls[i], i, t.readers[0], t.stream) {
      if s.readers[0].ReadLine? {
        ReadingDelivers(s, i, input.line, t.readers[0]);
      } else if s.readers[0].Put? {
        FillingDelivers(s, i, input);
      } else {
        CarryingDelivers(s, i, input);
      }
    }
  }

  lemma CallerKeepsSerial(s: State, i: nat)
    requires SerialInv(s) && Enabled(s, Caller(i, Go))
    ensures i == |s.calls| - 1 && Serial(CallerStep(s, i, Go).calls, CallerStep(s, i, Go).nextId)
  {
  }

  lemma CallerDelivers(s: State, i: nat)
    requires SerialInv(s) && Enabled(s, Caller(i, Go))
    ensures AllDelivered(CallerStep(s, i, Go).calls, s.readers[0], s.stream)
  {
    var t := CallerStep(s, i, Go);
    forall j | 0 <= j < |t.calls| && HasId(t.calls[j].pc) ensures Delivered(t.calls[j], j, s.readers[0], s.stream) {
      if j == i { ThisCallDelivers(s, i); }
    }
  }

  lemma ThisCallDelivers(s: State, i: nat)
    requires SerialInv(s) && Enabled(s, Caller(i, Go)) && HasId(CallerStep(s, i, Go).calls[i].pc)
    ensures Delivered(CallerStep(s, i, Go).calls[i], i, s.readers[0], s.stream)
  {
    assert CallOk(s.calls[i], s.stream);
    if HasId(s.calls[i].pc) {
      assert Delivered(s.calls[i], i, s.readers[0], s.stream);
    } else if s.calls[i].pc.TakeId? {
      NextIdIsUnheard(s);
    }
  }

  lemma NextIdIsUnheard(s: State)
    requires CausalInv(s)
    ensures First(s.stream, s.nextId) == |s.stream|
  {
    if First(s.stream, s.nextId) < |s.stream| {
      var j := SentBy(s, s.nextId);
    }
  }

  lemma SerialStep(s: State, a: Action)
    requires SerialInv(s) && Enabled(s, a) && SingleCaller(s, a)
    ensures Live(Step(s, a)) && Serial(Step(s, a).calls, Step(s, a).nextId) && Ordered(Step(s, a).stream)
    ensures AllDelivered(Step(s, a).calls, Step(s, a).readers[0], Step(s, a).stream)
  {
    LiveStep(s, a);
    match a
    case Owner(start) =>
    case Connector(c, opens) => assert |s.readers| == |Step(s, a).readers|;
    case Reader(r, input) =>
      ReaderKeepsOrder(s, input);
      ReaderKeepsSerial(s, input);
      ReaderDelivers(s, input);
    case NewCall => NewCallDelivers(s);
    case Caller(i, choice) =>
      CallerKeepsSerial(s, i);
      CallerDelivers(s, i);
  }

  lemma NewCallDelivers(s: State)
    requires SerialInv(s)
    ensures AllDelivered(Step(s, NewCall).calls, s.readers[0], s.stream)
  {
    var calls := Step(s, NewCall).calls;
    forall i | 0 <= i < |calls| && HasId(calls[i].pc) ensures Delivered(calls[i], i, s.readers[0], s.stream) {
      assert i < |s.calls| && calls[i] == s.calls[i];
    }
  }

  lemma SerialKept()
    ensures Keeps(SingleCaller, SerialInv)
  {
    forall s, a | SerialInv(s) && Enabled(s, a) && SingleCaller(s, a) ensures SerialInv(Apply(s, a)) {
      StepKeepsInv(s, a);
      CausalStep(s, a);
      SerialStep(s, a);
    }
  }

  lemma SerialAtFirst(s: State)
    requires JustConnected(s)
    ensures SerialInv(s)
  {
  }

  lemma SerialHolds(s: State, acts: seq<Action>, t: State)
    requires JustConnected(s) && Reaches(SingleCaller, s, acts, t)
    ensures SerialInv(t)
  {
    SerialKept();
    SerialAtFirst(s);
    KeptOverRuns(SingleCaller, SerialInv, s, acts, t);
  }

  // ---------- the sequential client on the same lines ----------

  ghost predicate WellFormed(stream: seq<Line>, p: nat, q: nat) {
    forall j :: p <= j < q && j < |stream| ==> stream[j].Parsed?
  }

  // Where the client stands after n requests.
  function After(stream: seq<Line>, n: nat): nat {
    if n == 0 then 0 else First(stream, n) + 1
  }

  // One more request.
  lemma ClientGetsNext(stream: seq<Line>, n: nat, msgs: seq<Json>)
    requires n >= 1 && RpcClient.Replies(stream, n - 1) == Some((msgs, After(stream, n - 1)))
    requires After(stream, n - 1) <= First(stream, n) < |stream|
    ensures RpcClient.Replies(stream, n) ==
              if WellFormed(stream, After(stream, n - 1), First(stream, n)) && stream[First(stream, n)].Parsed?
              then Some((msgs + [stream[First(stream, n)].msg], After(stream, n))) else None
  {
    RpcClient.ScanFindsFirst(stream, After(stream, n - 1), n, |stream| + 1);
  }

  /** On a stream that answers in order the client gets the first answer to each request, unless a
      malformed line comes before the last of them. */
  lemma {:induction false} ClientGetsFirsts(stream: seq<Line>, n: nat)
    requires Ordered(stream) && forall k :: 1 <= k <= n ==> First(stream, k) < |stream|
    ensures RpcClient.Replies(stream, n).Some? <==> WellFormed(stream, 0, After(stream, n))
    ensures RpcClient.Replies(stream, n).Some? ==>
              && RpcClient.Replies(stream, n).value.1 == After(stream, n)
              && forall i :: 0 <= i < n
                  ==> stream[First(stream, i + 1)] == Parsed(RpcClient.Replies(stream, n).value.0[i])
  {
    if n != 0 {
      ClientGetsFirsts(stream, n - 1);
      var p, f := After(stream, n - 1), First(stream, n);
      assert OrderedAt(stream, n);
      var r := RpcClient.Replies(stream, n - 1);
      if r.Some? {
        ClientGetsNext(stream, n, r.value.0);
      } else {
        var j :| 0 <= j < p && j < |stream| && !stream[j].Parsed?;
      }
    }
  }

  // How many calls have been answered.
  function Ended(s: State): nat {
    if s.calls == [] then 0
    else if s.calls[|s.calls| - 1].pc.Done? then |s.calls| else |s.calls| - 1
  }

  /** At any moment of any such run: the calls that have ended used the ids 1, 2, 3, ... and each of
      them got the first line the server sent that answers it; on the same lines the sequential client
      uses the same ids and gets the same messages, exactly if no malformed line comes before the last
      of those replies (the bridge skips a malformed line, the client raises on it). */
  lemma BridgeRefinesClient(s: State, acts: seq<Action>, t: State)
    requires JustConnected(s) && Reaches(SingleCaller, s, acts, t)
    ensures forall i :: 0 <= i < Ended(t) ==> GotFirst(t, i)
    ensures var r := RpcClient.Replies(t.stream, Ended(t));
            && (r.Some? <==> WellFormed(t.stream, 0, After(t.stream, Ended(t))))
            && (r.Some? ==> forall i :: 0 <= i < Ended(t) ==> t.calls[i].pc == Done(Answered(r.value.0[i])))
  {
    SerialHolds(s, acts, t);
    EndedGotFirst(t);
    ClientGetsFirsts(t.stream, Ended(t));
    var r := RpcClient.Replies(t.stream, Ended(t));
    if r.Some? {
      forall i | 0 <= i < Ended(t) ensures t.calls[i].pc == Done(Answered(r.value.0[i])) {
        assert GotFirst(t, i);
      }
    }
  }

  lemma EndedGotFirst(t: State)
    requires SerialInv(t)
    ensures forall i :: 0 <= i < Ended(t) ==> GotFirst(t, i)
    ensures forall k :: 1 <= k <= Ended(t) ==> First(t.stream, k) < |t.stream|
  {
    forall i | 0 <= i < Ended(t) ensures GotFirst(t, i) {
      assert t.calls[i].pc.Done? && HasId(t.calls[i].pc);
      assert Delivered(t.calls[i], i, t.readers[0], t.stream);
    }
    forall k | 1 <= k <= Ended(t) ensures First(t.stream, k) < |t.stream| {
      assert GotFirst(t, k - 1);
    }
  }

  // Call i had id i + 1 and ended with the first line that answers it.
  ghost predicate GotFirst(t: State, i: nat) {
    && i < |t.calls| && t.calls[i].id == i + 1
    && First(t.stream, i + 1) < |t.stream|
    && t.calls[i].pc == Done(Answered(t.stream[First(t.stream, i + 1)].msg))
  }
}
