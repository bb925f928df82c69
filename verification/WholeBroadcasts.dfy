/** Runs of EventFanout in which nobody comes between the steps of a broadcast: a queue then holds what
    EventLog says. */
module WholeBroadcasts {
  import opened Sequences

  import opened EventLog
  import opened EventFanout

  // While a thread is broadcasting, only it takes steps.
  ghost predicate Uninterrupted(s: State, a: Action) {
    forall b :: 0 <= b < |s.threads| && !s.threads[b].pc.Idle? ==> a == Go(b)
  }

  ghost predicate WholeRun(s: State, acts: seq<Action>, t: State)
    decreases |acts|
  {
    if acts == [] then s == t
    else Enabled(s, acts[0]) && Uninterrupted(s, acts[0]) && WholeRun(Step(s, acts[0]), acts[1..], t)
  }

  predicate AllIdle(s: State) {
    forall b :: 0 <= b < |s.threads| ==> s.threads[b].pc.Idle?
  }

  function Items(s: State, q: nat): seq<Event> {
    if q < |s.queues| then s.queues[q].items else []
  }

  // What the step means for queue q.
  function OpOf(s: State, a: Action, q: nat): seq<Op<Event>> {
    match a
    case Begin(b) => if b < |s.threads| && q in s.subscribed then [Broadcast(Event(b, s.threads[b].num))] else []
    case Consume(p) => if p == q then [Read] else []
    case _ => []
  }

  // And the run.
  ghost function OpsOf(s: State, acts: seq<Action>, q: nat): seq<Op<Event>>
    decreases |acts|
  {
    if acts == [] || !Enabled(s, acts[0]) then [] else OpOf(s, acts[0], q) + OpsOf(Step(s, acts[0]), acts[1..], q)
  }

  // Thread b, having found its queue full, has room for its event as soon as it has pushed one out.
  predicate MidBroadcast(s: State, b: nat) {
    b < |s.threads| && (s.threads[b].pc.Evict? || s.threads[b].pc.Retry?) ==>
      && Rest(s.threads[b].pc) != []
      && |Items(s, Rest(s.threads[b].pc)[0])| == if s.threads[b].pc.Evict? then CAPACITY else CAPACITY - 1
  }

  ghost predicate WholeInv(s: State) { Inv(s) && forall b :: MidBroadcast(s, b) }

  // Queue q, with these contents, when a thread with `rest` to serve is through with event e.
  function Outcome(rest: seq<nat>, q: nat, items: seq<Event>, e: Event): seq<Event> {
    if q in rest then KeepLast(items + [e]) else items
  }

  // What queue q will hold when thread b is through with its broadcast.
  function WhenDone(s: State, b: nat, q: nat): seq<Event>
    requires b < |s.threads| && s.threads[b].num > 0
  {
    Outcome(Rest(s.threads[b].pc), q, Items(s, q), Current(s, b))
  }

  // Queue q holds v, or will when the broadcast going on is over.
  ghost predicate Holds(s: State, q: nat, v: seq<Event>) {
    && (AllIdle(s) ==> v == Items(s, q))
    && (forall b :: 0 <= b < |s.threads| && !s.threads[b].pc.Idle? ==> s.threads[b].num > 0 && v == WhenDone(s, b, q))
  }

  // One step at the queue in front: it takes the event, or is found full, or loses its oldest.
  lemma GoAtFront(s: State, b: nat)
    requires Inv(s) && MidBroadcast(s, b) && Enabled(s, Go(b)) && Rest(s.threads[b].pc) != []
    ensures var t, pc, q := GoStep(s, b), s.threads[b].pc, Rest(s.threads[b].pc)[0];
            var items, next := Items(s, q), t.threads[b].pc;
            || (next == Try(Rest(pc)[1..]) && |items| < CAPACITY && Items(t, q) == items + [Current(s, b)])
            || (next == Evict(Rest(pc)) && |items| == CAPACITY && Items(t, q) == items)
            || (next == Retry(Rest(pc)) && |items| == CAPACITY && Items(t, q) == items[1..])
  {
    var pc := s.threads[b].pc;
    assert ThreadOk(s, b) && QueueOk(s.queues[Rest(pc)[0]]);
    assert [Rest(pc)[0]] + Rest(pc)[1..] == Rest(pc);
  }

  lemma GoElsewhere(s: State, b: nat, q: nat)
    requires Inv(s) && Enabled(s, Go(b)) && (Rest(s.threads[b].pc) != [] ==> q != Rest(s.threads[b].pc)[0])
    ensures Items(GoStep(s, b), q) == Items(s, q)
    ensures q in Rest(GoStep(s, b).threads[b].pc) <==> q in Rest(s.threads[b].pc)
  {
    var rest, next := Rest(s.threads[b].pc), Rest(GoStep(s, b).threads[b].pc);
    if rest != [] {
      assert [rest[0]] + rest[1..] == rest;
      assert next == rest || next == rest[1..];
    }
  }

  lemma PushThenAdd(items: seq<Event>, e: Event)
    requires |items| == CAPACITY
    ensures KeepLast(items[1..] + [e]) == KeepLast(items + [e])
  {
    assert (items + [e])[1..] == items[1..] + [e];
  }

  lemma SameOutcome(rest: seq<nat>, items: seq<Event>, e: Event, next: Pc, more: seq<Event>)
    requires rest != [] && rest[0] !in rest[1..]
    requires || (next == Try(rest[1..]) && |items| < CAPACITY && more == items + [e])
             || (next == Evict(rest) && |items| == CAPACITY && more == items)
             || (next == Retry(rest) && |items| == CAPACITY && more == items[1..])
    ensures Outcome(Rest(next), rest[0], more, e) == Outcome(rest, rest[0], items, e)
  {
    if next == Retry(rest) { PushThenAdd(items, e); }
  }

  lemma FrontHolds(s: State, b: nat)
    requires Inv(s) && MidBroadcast(s, b) && Enabled(s, Go(b)) && Rest(s.threads[b].pc) != []
    ensures b < |GoStep(s, b).threads| && GoStep(s, b).threads[b].num == s.threads[b].num
            && MidBroadcast(GoStep(s, b), b)
    ensures WhenDone(GoStep(s, b), b, Rest(s.threads[b].pc)[0]) == WhenDone(s, b, Rest(s.threads[b].pc)[0])
  {
    var t, rest := GoStep(s, b), Rest(s.threads[b].pc);
    GoAtFront(s, b);
    assert t.threads[b].num == s.threads[b].num && Current(t, b) == Current(s, b);
    assert rest[0] !in rest[1..] by { assert ThreadOk(s, b); }
    SameOutcome(rest, Items(s, rest[0]), Current(s, b), t.threads[b].pc, Items(t, rest[0]));
  }

  lemma GoHolds(s: State, b: nat, q: nat)
    requires Inv(s) && MidBroadcast(s, b) && Enabled(s, Go(b))
    ensures b < |GoStep(s, b).threads| && GoStep(s, b).threads[b].num == s.threads[b].num
            && MidBroadcast(GoStep(s, b), b)
    ensures WhenDone(GoStep(s, b), b, q) == WhenDone(s, b, q)
  {
    var rest := Rest(s.threads[b].pc);
    if rest != [] {
      FrontHolds(s, b);
    }
    if rest == [] || q != rest[0] {
      GoElsewhere(s, b, q);
    }
  }

  // Nobody else is broadcasting.
  lemma GoAlone(s: State, b: nat, q: nat, v: seq<Event>)
    requires Inv(s) && MidBroadcast(s, b) && Enabled(s, Go(b)) && Uninterrupted(s, Go(b)) && Holds(s, q, v)
    ensures Holds(GoStep(s, b), q, v) && forall c :: MidBroadcast(GoStep(s, b), c)
  {
    var t := GoStep(s, b);
    GoHolds(s, b, q);
    assert |t.threads| == |s.threads|;
    forall c | 0 <= c < |s.threads| && c != b ensures t.threads[c].pc.Idle? {
      assert Uninterrupted(s, Go(b)) && t.threads[c] == s.threads[c];
    }
    if AllIdle(t) {
      assert t.threads[b].pc.Idle? && Rest(t.threads[b].pc) == [];
    }
  }

  lemma OutsideHolds(s: State, a: Action, q: nat, v: seq<Event>)
    requires Inv(s) && Enabled(s, a) && !a.Go? && AllIdle(s) && Holds(s, q, v)
    ensures Holds(Step(s, a), q, After(v, OpOf(s, a, q))) && forall c :: MidBroadcast(Step(s, a), c)
  {
    if a.Begin? {
      BeginHolds(s, a.b, q);
    } else {
      assert Items(Step(s, a), q) == After(v, OpOf(s, a, q));
      assert AllIdle(Step(s, a));
    }
  }

  lemma BeginHolds(s: State, b: nat, q: nat)
    requires Inv(s) && Enabled(s, Begin(b)) && AllIdle(s)
    ensures Holds(Step(s, Begin(b)), q, After(Items(s, q), OpOf(s, Begin(b), q)))
    ensures forall c :: MidBroadcast(Step(s, Begin(b)), c)
  {
    var t := Step(s, Begin(b));
    assert t.threads[b].pc == Try(s.subscribed) && Current(t, b) == Event(b, s.threads[b].num);
    assert WhenDone(t, b, q) == After(Items(s, q), OpOf(s, Begin(b), q));
  }

  function After(v: seq<Event>, ops: seq<Op<Event>>): seq<Event> { if ops == [] then v else AfterOp(v, ops[0]) }

  lemma StepHolds(s: State, a: Action, q: nat, v: seq<Event>)
    requires WholeInv(s) && Enabled(s, a) && Uninterrupted(s, a) && Holds(s, q, v)
    ensures WholeInv(Step(s, a)) && Holds(Step(s, a), q, After(v, OpOf(s, a, q)))
  {
    StepOk(s, a);
    if a.Go? {
      GoAlone(s, a.b, q, v);
    } else {
      OutsideHolds(s, a, q, v);
    }
  }

  // The queue after one more step, if it is a step for this queue.
  lemma Longer(ops: seq<Op<Event>>, op: seq<Op<Event>>, rest: seq<Op<Event>>)
    requires |op| <= 1
    ensures QueueAfter(ops + op) == After(QueueAfter(ops), op) && (ops + op) + rest == ops + (op + rest)
  {
    Assoc(ops, op, rest);
    if op == [] {
      Empty(ops);
    } else {
      assert op == [op[0]];
      OneMore(ops, op[0]);
    }
  }

  lemma {:induction false} RunHolds(s: State, acts: seq<Action>, t: State, q: nat, ops: seq<Op<Event>>)
    requires WholeInv(s) && WholeRun(s, acts, t) && Holds(s, q, QueueAfter(ops))
    ensures Holds(t, q, QueueAfter(ops + OpsOf(s, acts, q)))
    decreases |acts|
  {
    if acts == [] {
      Empty(ops);
    } else {
      var op, u := OpOf(s, acts[0], q), Step(s, acts[0]);
      StepHolds(s, acts[0], q, QueueAfter(ops));
      Longer(ops, op, OpsOf(u, acts[1..], q));
      RunHolds(u, acts[1..], t, q, ops + op);
    }
  }

  /** In every run that leaves broadcasts whole, a queue holds, between broadcasts, the last 100 of the
      events broadcast to it that have not been passed: a contiguous end of that log. */
  lemma WholeRunsKeepLast(acts: seq<Action>, t: State, q: nat)
    requires WholeRun(INIT, acts, t) && AllIdle(t) && q < |t.queues|
    ensures var ops := OpsOf(INIT, acts, q);
            t.queues[q].items == QueueAfter(ops) == KeepLast(Log(ops)[Passed(ops)..])
  {
    RunHolds(INIT, acts, t, q, []);
    Empty(OpsOf(INIT, acts, q));
    QueueIsLastUnread(OpsOf(INIT, acts, q));
  }

  // A whole run with one step in front.
  lemma StepFirst(s: State, a: Action, acts: seq<Action>, t: State)
    requires Enabled(s, a) && Uninterrupted(s, a) && WholeRun(Step(s, a), acts, t)
    ensures WholeRun(s, [a] + acts, t)
  {
    assert ([a] + acts)[1..] == acts;
  }

  // With the broadcaster ready and one queue subscribed.
  lemma EventArrives(s: State) returns (acts: seq<Action>, t: State)
    requires s.subscribed == [0] && s.queues == [Queue([], [], [], {}, {})] && s.threads == [Broadcaster(Idle, 0)]
    ensures WholeRun(s, acts, t) && AllIdle(t) && |t.queues| == 1 && t.queues[0].items == [Event(0, 0)]
  {
    var s1 := Step(s, Begin(0));
    assert s1.threads == [Broadcaster(Try([0]), 1)];
    var s2 := Step(s1, Go(0));
    assert [0][1..] == [] && s2.threads == [Broadcaster(Try([]), 1)];
    t := Step(s2, Go(0));
    StepFirst(s2, Go(0), [], t);
    StepFirst(s1, Go(0), [Go(0)] + [], t);
    acts := [Begin(0)] + ([Go(0)] + ([Go(0)] + []));
    StepFirst(s, Begin(0), [Go(0)] + ([Go(0)] + []), t);
  }

  /** There are such runs: a subscriber to whom nothing else happens gets the first event. */
  lemma FirstEventArrives() returns (acts: seq<Action>, t: State)
    ensures WholeRun(INIT, acts, t) && AllIdle(t) && |t.queues| == 1 && t.queues[0].items == [Event(0, 0)]
  {
    var s1 := Step(INIT, Subscribe);
    assert s1.subscribed == [0];
    var s2 := Step(s1, NewThread);
    acts, t := EventArrives(s2);
    StepFirst(s1, NewThread, acts, t);
    StepFirst(INIT, Subscribe, [NewThread] + acts, t);
    acts := [Subscribe] + ([NewThread] + acts);
  }
}
