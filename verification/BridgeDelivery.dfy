/** What becomes of a reply under the assumptions a well-behaved server meets: it answers only requests
    it was sent, and it answers each at most once. */
module BridgeDelivery {
  import opened Wrappers
  import opened JsonRpc
  import opened BridgeMachine
  import opened BridgeTable

  // The message the action takes off the wire.
  function Incoming(s: State, a: Action): Option<Json> {
    if a.Reader? && a.r < |s.readers| && s.readers[a.r].ReadLine? && a.input.Got? && a.input.line.Parsed?
    then Some(a.input.line.msg) else None
  }

  function IncomingKey(s: State, a: Action): Option<int> {
    if Incoming(s, a).Some? then Key(Incoming(s, a).value) else None
  }

  ghost predicate Heard(stream: seq<Line>, k: int) {
    exists j :: 0 <= j < |stream| && LineAnswers(stream[j], k)
  }

  /** The server replies only to ids it has been sent, on whichever connection. */
  ghost predicate Causal(s: State, a: Action) {
    IncomingKey(s, a).Some? ==> IncomingKey(s, a).value in s.sent
  }

  /** The server sends at most one reply per id, over all connections. */
  ghost predicate OneReply(s: State, a: Action) {
    IncomingKey(s, a).Some? ==> !Heard(s.stream, IncomingKey(s, a).value)
  }

  // ---------- no reply is lost by arriving early ----------

  predicate PastSend(pc: CallerPc) { pc.Wait? || pc.Unregister? || (pc.Done? && HasId(pc)) }

  ghost predicate SentOk(s: State) {
    && (forall k :: k in s.sent ==> exists i :: 0 <= i < |s.calls| && s.calls[i].id == k && PastSend(s.calls[i].pc))
    && (forall k :: Heard(s.stream, k) ==> k in s.sent)
  }

  ghost predicate CausalInv(s: State) { Inv(s) && SentOk(s) }

  lemma SentCallsStay(s: State, a: Action)
    requires Inv(s) && SentOk(s) && Enabled(s, a)
    ensures forall k :: k in s.sent ==>
      exists i :: 0 <= i < |Step(s, a).calls| && Step(s, a).calls[i].id == k && PastSend(Step(s, a).calls[i].pc)
  {
    StepIsLater(s, a);
    var t := Step(s, a);
    forall k | k in s.sent
      ensures exists i :: 0 <= i < |t.calls| && t.calls[i].id == k && PastSend(t.calls[i].pc)
    {
      var i :| 0 <= i < |s.calls| && s.calls[i].id == k && PastSend(s.calls[i].pc);
      assert Follows(s.calls[i], t.calls[i], s.nextId);
      PastSendStays(s, a, i);
    }
  }

  lemma PastSendStays(s: State, a: Action, i: nat)
    requires Inv(s) && Enabled(s, a) && i < |s.calls| && PastSend(s.calls[i].pc)
    ensures i < |Step(s, a).calls| && PastSend(Step(s, a).calls[i].pc)
  {
    match a
    case Owner(start) =>
    case Connector(c, opens) =>
    case Reader(r, input) =>
    case NewCall =>
    case Caller(j, choice) =>
      if j == i { assert s.calls[i].pc != Unregister(Refused); }
  }

  lemma HeardMore(stream: seq<Line>, l: Line)
    ensures forall k :: Heard(stream + [l], k) <==> Heard(stream, k) || LineAnswers(l, k)
  {
    forall k ensures Heard(stream + [l], k) <==> Heard(stream, k) || LineAnswers(l, k) {
      assert (stream + [l])[|stream|] == l;
      forall j | 0 <= j < |stream| && LineAnswers(stream[j], k) ensures Heard(stream + [l], k) {
        assert (stream + [l])[j] == stream[j];
      }
    }
  }

  lemma CausalStep(s: State, a: Action)
    requires CausalInv(s) && Enabled(s, a) && Causal(s, a)
    ensures SentOk(Step(s, a))
  {
    SentCallsStay(s, a);
    match a
    case Owner(start) =>
    case Connector(c, opens) =>
    case Reader(r, input) =>
      if input.Got? { HeardMore(s.stream, input.line); }
    case NewCall =>
    case Caller(i, choice) =>
      if s.calls[i].pc.Send? && choice.Go? {
        assert PastSend(CallerStep(s, i, choice).calls[i].pc);
      }
  }

  lemma CausalKept()
    ensures Keeps(Causal, CausalInv)
  {
    forall s, a | CausalInv(s) && Enabled(s, a) && Causal(s, a) ensures CausalInv(Apply(s, a)) {
      StepKeepsInv(s, a);
      CausalStep(s, a);
    }
  }

  lemma CausalHolds(acts: seq<Action>, t: State)
    requires Reaches(Causal, INIT, acts, t)
    ensures CausalInv(t)
  {
    CausalKept();
    KeptOverRuns(Causal, CausalInv, INIT, acts, t);
  }

  lemma SentBy(t: State, k: int) returns (i: nat)
    requires CausalInv(t) && Heard(t.stream, k)
    ensures i < |t.calls| && t.calls[i].id == k && PastSend(t.calls[i].pc)
  {
    i :| 0 <= i < |t.calls| && t.calls[i].id == k && PastSend(t.calls[i].pc);
  }

  // The call a reader's reply belongs to.
  lemma ReplyBelongs(t: State, r: nat) returns (i: nat)
    requires CausalInv(t) && r < |t.readers| && t.readers[r].Lookup? && Key(t.readers[r].msg).Some?
    ensures i < |t.calls| && PastSend(t.calls[i].pc) && HasId(t.calls[i].pc) && Answers(t.readers[r].msg, t.calls[i].id)
  {
    var m := t.readers[r].msg;
    assert ReaderOk(t.readers[r], t.calls, t.stream);
    assert LineAnswers(Parsed(m), Key(m).value);
    i := SentBy(t, Key(m).value);
    assert t.calls[i].pc != Unregister(Refused);
  }

  lemma LookupFinds(t: State, r: nat, i: nat)
    requires Inv(t) && r < |t.readers| && t.readers[r].Lookup?
    requires i < |t.calls| && PastSend(t.calls[i].pc) && Answers(t.readers[r].msg, t.calls[i].id)
    ensures AfterReader(t, t.readers[r], Eof) == if t.calls[i].pc.Done? then ReadRunning else Put(i, t.readers[r].msg)
  {
    if t.calls[i].pc.Done? {
      EndedIsNotPending(t, i);
    } else {
      assert InTable(t.calls[i].pc);
    }
  }

  /** When the server answers only what it was sent, a reader that looks a reply up hands it to the call
      it belongs to, and throws it away exactly when that call has already ended. */
  lemma RepliesAreNotLost(acts: seq<Action>, t: State, r: nat, input: Input) returns (i: nat)
    requires Reaches(Causal, INIT, acts, t)
    requires r < |t.readers| && t.readers[r].Lookup? && Key(t.readers[r].msg).Some?
    ensures i < |t.calls| && HasId(t.calls[i].pc) && Answers(t.readers[r].msg, t.calls[i].id)
    ensures ReaderStep(t, r, input)
            == WithReader(t, r, if t.calls[i].pc.Done? then ReadRunning else Put(i, t.readers[r].msg))
  {
    CausalHolds(acts, t);
    i := ReplyBelongs(t, r);
    LookupFinds(t, r, i);
  }

  // ---------- delivering a reply never blocks ----------

  // At most one of these lines answers request k, whatever k is.
  ghost predicate AnsweredOnce(stream: seq<Line>) {
    forall i, j, k :: 0 <= i < j < |stream| && LineAnswers(stream[i], k) ==> !LineAnswers(stream[j], k)
  }

  lemma AnsweredOnceMore(stream: seq<Line>, l: Line)
    requires AnsweredOnce(stream)
    ensures AnsweredOnce(stream + [l]) <==> forall k :: LineAnswers(l, k) ==> !Heard(stream, k)
  {
    var t := stream + [l];
    if forall k :: LineAnswers(l, k) ==> !Heard(stream, k) {
      forall i, j, k | 0 <= i < j < |t| && LineAnswers(t[i], k) ensures !LineAnswers(t[j], k) {
        assert t[i] == stream[i] && (j < |stream| ==> t[j] == stream[j]);
        assert Heard(stream, k);
      }
    } else {
      var k :| LineAnswers(l, k) && Heard(stream, k);
      var i :| 0 <= i < |stream| && LineAnswers(stream[i], k);
      assert LineAnswers(t[i], k) && LineAnswers(t[|stream|], k);
    }
  }

  lemma OneReplyHere(s: State, a: Action)
    requires Enabled(s, a) && AnsweredOnce(s.stream)
    ensures OneReply(s, a) <==> AnsweredOnce(Apply(s, a).stream)
  {
    if a.Reader? && s.readers[a.r].ReadLine? && a.input.Got? {
      var l := a.input.line;
      AnsweredOnceMore(s.stream, l);
      assert forall k :: LineAnswers(l, k) <==> IncomingKey(s, a) == Some(k);
    }
  }

  lemma {:induction false} StreamGrows(s: State, acts: seq<Action>, t: State)
    requires Reaches(Anything, s, acts, t)
    ensures s.stream <= t.stream
    decreases |acts|
  {
    if acts != [] {
      StreamGrows(Apply(s, acts[0]), acts[1..], t);
    }
  }

  lemma PrefixAnsweredOnce(a: seq<Line>, b: seq<Line>)
    requires a <= b && AnsweredOnce(b)
    ensures AnsweredOnce(a)
  {
    assert forall i :: 0 <= i < |a| ==> a[i] == b[i];
  }

  /** The assumption, said of what was sent: it is met by exactly the runs in which no two lines answer
      the same request. */
  lemma {:induction false} OneReplyIff(s: State, acts: seq<Action>, t: State)
    requires AnsweredOnce(s.stream)
    ensures Reaches(OneReply, s, acts, t) <==> Reaches(Anything, s, acts, t) && AnsweredOnce(t.stream)
    decreases |acts|
  {
    if acts != [] && Enabled(s, acts[0]) {
      var u := Apply(s, acts[0]);
      OneReplyHere(s, acts[0]);
      if AnsweredOnce(u.stream) {
        OneReplyIff(u, acts[1..], t);
      } else if Reaches(Anything, u, acts[1..], t) {
        StreamGrows(u, acts[1..], t);
        if AnsweredOnce(t.stream) { PrefixAnsweredOnce(u.stream, t.stream); }
      }
    }
  }

  // The id of the reply the reader is carrying.
  function Carried(pc: ReaderPc): Option<int> {
    match pc
    case Lookup(m) => Key(m)
    case Put(_, m) => Key(m)
    case _ => None
  }

  predicate Unanswered(c: Call) {
    c.slot.None? && (ExitOf(c.pc).Some? ==> !ExitOf(c.pc).value.Answered?)
  }

  // Every reply is in one place: with one reader, in one queue or at one call.
  ghost predicate OneHolder(calls: seq<Call>, readers: seq<ReaderPc>) {
    && (forall r, q :: 0 <= r < q < |readers| && Carried(readers[r]).Some? ==>
           Carried(readers[r]) != Carried(readers[q]))
    && (forall r, i :: 0 <= r < |readers| && 0 <= i < |calls| && HasId(calls[i].pc)
                       && Carried(readers[r]) == Some(calls[i].id)
         ==> Unanswered(calls[i]))
  }

  ghost predicate OneReplyInv(s: State) { Inv(s) && OneHolder(s.calls, s.readers) }

  // What a reader carries, or a call holds, has been heard.
  lemma HoldersWereHeard(s: State, k: int)
    requires Inv(s)
    ensures forall r :: 0 <= r < |s.readers| && Carried(s.readers[r]) == Some(k) ==> Heard(s.stream, k)
    ensures forall i :: 0 <= i < |s.calls| && s.calls[i].id == k && !Unanswered(s.calls[i]) ==> Heard(s.stream, k)
  {
    forall r | 0 <= r < |s.readers| && Carried(s.readers[r]) == Some(k) ensures Heard(s.stream, k) {
      assert ReaderOk(s.readers[r], s.calls, s.stream);
      assert LineAnswers(Parsed(s.readers[r].msg), k);
    }
    forall i | 0 <= i < |s.calls| && s.calls[i].id == k && !Unanswered(s.calls[i]) ensures Heard(s.stream, k) {
      assert CallOk(s.calls[i], s.stream);
      var m := if s.calls[i].slot.Some? then s.calls[i].slot.value else ExitOf(s.calls[i].pc).value.msg;
      assert LineAnswers(Parsed(m), k);
    }
  }

  // A caller's step makes a call answered only by taking what is in its queue.
  lemma CallerAnswers(s: State, i: nat, choice: Choice)
    requires Inv(s) && Enabled(s, Caller(i, choice)) && (HasId(s.calls[i].pc) ==> Unanswered(s.calls[i]))
    ensures i < |CallerStep(s, i, choice).calls| && Unanswered(CallerStep(s, i, choice).calls[i])
  {
    assert CallOk(s.calls[i], s.stream);
  }

  lemma CallerKeepsHolder(s: State, i: nat, choice: Choice)
    requires OneReplyInv(s) && Enabled(s, Caller(i, choice))
    ensures OneHolder(CallerStep(s, i, choice).calls, s.readers)
  {
    var t := CallerStep(s, i, choice);
    if HasId(s.calls[i].pc) ==> Unanswered(s.calls[i]) {
      CallerAnswers(s, i, choice);
    } else {
      assert SameId(s.calls[i], t.calls[i]);
    }
  }

  lemma MoveHolder(calls: seq<Call>, readers: seq<ReaderPc>, r: nat, pc: ReaderPc)
    requires OneHolder(calls, readers) && r < |readers|
    requires Carried(pc).Some? && Carried(pc) != Carried(readers[r]) ==>
      && (forall q :: 0 <= q < |readers| ==> Carried(readers[q]) != Carried(pc))
      && (forall i :: 0 <= i < |calls| && calls[i].id == Carried(pc).value ==> Unanswered(calls[i]))
    ensures OneHolder(calls, readers[r := pc])
  {
  }

  lemma FillKeepsHolder(s: State, r: nat, input: Input)
    requires OneReplyInv(s) && Enabled(s, Reader(r, input)) && s.readers[r].Put?
    ensures OneHolder(ReaderStep(s, r, input).calls, ReaderStep(s, r, input).readers)
  {
    var q := s.readers[r].call;
    assert ReaderOk(s.readers[r], s.calls, s.stream);
    MoveHolder(s.calls, s.readers, r, ReadRunning);
    var readers := s.readers[r := ReadRunning];
    forall p | 0 <= p < |readers| ensures Carried(readers[p]) != Some(s.calls[q].id) {
      if p != r { assert Carried(s.readers[p]) != Carried(s.readers[r]); }
    }
  }

  lemma OneReplyStep(s: State, a: Action)
    requires OneReplyInv(s) && Enabled(s, a) && OneReply(s, a)
    ensures OneHolder(Step(s, a).calls, Step(s, a).readers)
  {
    match a
    case Owner(start) =>
    case Connector(c, opens) =>
    case NewCall =>
    case Caller(i, choice) => CallerKeepsHolder(s, i, choice);
    case Reader(r, input) =>
      if s.readers[r].Put? {
        FillKeepsHolder(s, r, input);
      } else {
        ReaderCarries(s, r, input);
        MoveHolder(s.calls, s.readers, r, ReaderStep(s, r, input).readers[r]);
      }
  }

  lemma ReaderCarries(s: State, r: nat, input: Input)
    requires OneReplyInv(s) && Enabled(s, Reader(r, input)) && !s.readers[r].Put? && OneReply(s, Reader(r, input))
    ensures var k := Carried(ReaderStep(s, r, input).readers[r]);
            k.Some? && k != Carried(s.readers[r]) ==>
              && (forall q :: 0 <= q < |s.readers| ==> Carried(s.readers[q]) != k)
              && (forall i :: 0 <= i < |s.calls| && s.calls[i].id == k.value ==> Unanswered(s.calls[i]))
  {
    var k := Carried(ReaderStep(s, r, input).readers[r]);
    if k.Some? && s.readers[r].ReadLine? {
      assert IncomingKey(s, Reader(r, input)) == k;
      HoldersWereHeard(s, k.value);
    }
  }

  lemma OneReplyKept()
    ensures Keeps(OneReply, OneReplyInv)
  {
    forall s, a | OneReplyInv(s) && Enabled(s, a) && OneReply(s, a) ensures OneReplyInv(Apply(s, a)) {
      StepKeepsInv(s, a);
      OneReplyStep(s, a);
    }
  }

  /** When the server sends at most one reply per id, the one-slot queue is empty at every put: a
      reader is never blocked, although lookup and put are not atomic with the caller's timeout and
      the removal from the table. */
  lemma DeliveryNeverBlocks(acts: seq<Action>, t: State, r: nat, input: Input)
    requires Reaches(OneReply, INIT, acts, t)
    requires r < |t.readers| && !t.readers[r].Dead?
    ensures Enabled(t, Reader(r, input))
  {
    OneReplyKept();
    KeptOverRuns(OneReply, OneReplyInv, INIT, acts, t);
    if t.readers[r].Put? { PutFindsRoom(t, r); }
  }

  lemma PutFindsRoom(t: State, r: nat)
    requires OneReplyInv(t) && r < |t.readers| && t.readers[r].Put?
    ensures t.readers[r].call < |t.calls| && t.calls[t.readers[r].call].slot.None?
  {
    assert ReaderOk(t.readers[r], t.calls, t.stream);
    assert Carried(t.readers[r]) == Some(t.calls[t.readers[r].call].id);
  }
}
