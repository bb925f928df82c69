/** Event fan-out with any number of concurrent broadcasters and consumers: every queue operation of
    `_broadcast_event` (162-174) is a step of its own. */
module EventFanout {
  import opened EventLog

  // The num-th event broadcast by thread `src`.
  datatype Event = Event(src: nat, num: nat)

  datatype Fate = Delivered | Evicted(cause: Event)

  /** A subscriber's queue. The rest is history: what was ever put in, what became of the events that
      have left, whose put found the queue full, and who is through with this queue. */
  datatype Queue = Queue(
    items: seq<Event>, entered: seq<Event>, fates: seq<Fate>, overflowed: set<Event>, served: set<Event>)

  datatype Pc =
    | Idle
    | Try(rest: seq<nat>)     // put_nowait, 168
    | Evict(rest: seq<nat>)   // get_nowait, 171
    | Retry(rest: seq<nat>)   // put_nowait, 172

  datatype Broadcaster = Broadcaster(pc: Pc, num: nat)  // num: events begun so far

  datatype State = State(
    subscribed: seq<nat>, queues: seq<Queue>, threads: seq<Broadcaster>, targets: map<Event, seq<nat>>)

  datatype Action =
    | Subscribe
    | Unsubscribe(q: nat)
    | NewThread
    | Begin(b: nat)
    | Go(b: nat)
    | Consume(q: nat)

  const INIT := State([], [], [], map[])

  function Current(s: State, b: nat): Event
    requires b < |s.threads| && s.threads[b].num > 0
  {
    Event(b, s.threads[b].num - 1)
  }

  // The queues a thread has still to serve.
  function Rest(pc: Pc): seq<nat> {
    match pc
    case Idle => []
    case Try(rest) => rest
    case Evict(rest) => rest
    case Retry(rest) => rest
  }

  function Without(qs: seq<nat>, q: nat): seq<nat> {
    if qs == [] then [] else if qs[0] == q then qs[1..] else [qs[0]] + Without(qs[1..], q)
  }

  predicate Enabled(s: State, a: Action) {
    match a
    case Subscribe => true
    case Unsubscribe(q) => true
    case NewThread => true
    case Begin(b) => b < |s.threads| && s.threads[b].pc.Idle?
    case Go(b) =>
      && b < |s.threads| && !s.threads[b].pc.Idle? && s.threads[b].num > 0
      && (Rest(s.threads[b].pc) != [] ==> Rest(s.threads[b].pc)[0] < |s.queues|)
      && (!s.threads[b].pc.Try? ==> Rest(s.threads[b].pc) != [])
    case Consume(q) => q < |s.queues| && s.queues[q].items != []
  }

  // ---------- the queue operations ----------

  function Enter(q: Queue, e: Event): Queue {
    q.(items := q.items + [e], entered := q.entered + [e], served := q.served + {e})
  }

  function Leave(q: Queue, fate: Fate): Queue
    requires q.items != []
  {
    q.(items := q.items[1..], fates := q.fates + [fate])
  }

  function Move(s: State, b: nat, pc: Pc): State
    requires b < |s.threads|
  {
    s.(threads := s.threads[b := s.threads[b].(pc := pc)])
  }

  function Set(s: State, q: nat, v: Queue): State
    requires q < |s.queues|
  {
    s.(queues := s.queues[q := v])
  }

  function GoStep(s: State, b: nat): State
    requires Enabled(s, Go(b))
  {
    var pc, e := s.threads[b].pc, Current(s, b);
    if Rest(pc) == [] then Move(s, b, Idle)
    else
      var rest, q := Rest(pc)[1..], Rest(pc)[0];
      var v := s.queues[q];
      if pc.Try? then
        if |v.items| < CAPACITY then Set(Move(s, b, Try(rest)), q, Enter(v, e))
        else Set(Move(s, b, Evict([q] + rest)), q, v.(overflowed := v.overflowed + {e}))
      else if pc.Evict? then
        if v.items == [] then Set(Move(s, b, Try(rest)), q, v.(served := v.served + {e}))  // queue.Empty: given up
        else Set(Move(s, b, Retry([q] + rest)), q, Leave(v, Evicted(e)))
      else
        if |v.items| < CAPACITY then Set(Move(s, b, Try(rest)), q, Enter(v, e))
        else Set(Move(s, b, Try(rest)), q, v.(served := v.served + {e}))  // queue.Full: given up
  }

  function Step(s: State, a: Action): State
    requires Enabled(s, a)
  {
    match a
    case Subscribe => s.(subscribed := s.subscribed + [|s.queues|], queues := s.queues + [Queue([], [], [], {}, {})])
    case Unsubscribe(q) => s.(subscribed := Without(s.subscribed, q))
    case NewThread => s.(threads := s.threads + [Broadcaster(Idle, 0)])
    case Begin(b) =>
      var e := Event(b, s.threads[b].num);
      s.(threads := s.threads[b := Broadcaster(Try(s.subscribed), s.threads[b].num + 1)],
         targets := s.targets[e := s.subscribed])
    case Go(b) => GoStep(s, b)
    case Consume(q) => Set(s, q, Leave(s.queues[q], Delivered))
  }

  ghost predicate Reaches(s: State, acts: seq<Action>, t: State)
    decreases |acts|
  {
    if acts == [] then s == t else Enabled(s, acts[0]) && Reaches(Step(s, acts[0]), acts[1..], t)
  }

  // ---------- what holds of one queue ----------

  // First in, first out: what is in the queue is the end of what entered it.
  predicate Fifo(q: Queue) {
    && |q.items| <= CAPACITY
    && |q.fates| + |q.items| == |q.entered|
    && q.items == q.entered[|q.fates|..]
  }

  // Every broadcaster's events are in the order it broadcast them; in particular none is there twice.
  predicate InOrder(es: seq<Event>) {
    forall i, j :: 0 <= i < j < |es| && es[i].src == es[j].src ==> es[i].num < es[j].num
  }

  // An event is pushed out, or given up, only on account of a put that found the queue full.
  predicate Excused(q: Queue) {
    && (forall i :: 0 <= i < |q.fates| && q.fates[i].Evicted? ==> q.fates[i].cause in q.overflowed)
    && (forall e :: e in q.served ==> e in q.entered || e in q.overflowed)
    && (forall e :: e in q.entered ==> e in q.served)
  }

  predicate QueueOk(q: Queue) { Fifo(q) && InOrder(q.entered) && Excused(q) }

  // ---------- what holds of threads and queues together ----------

  predicate Distinct(qs: seq<nat>) {
    forall i, j :: 0 <= i < j < |qs| ==> qs[i] != qs[j]
  }

  // Events of thread b that a queue is through with are among those b has begun, and among those it has
  // finished while the queue is still to be served.
  predicate Behind(s: State, b: nat, q: nat) {
    b < |s.threads| && q < |s.queues| ==>
      forall e :: e in s.queues[q].served && e.src == b ==>
        e.num < s.threads[b].num && (q in Rest(s.threads[b].pc) ==> e.num < s.threads[b].num - 1)
  }

  predicate ThreadOk(s: State, b: nat) {
    b < |s.threads| ==>
      var t := s.threads[b];
      && Distinct(Rest(t.pc)) && (forall q :: q in Rest(t.pc) ==> q < |s.queues|)
      && (!t.pc.Idle? ==> t.num > 0)
      && (t.pc.Evict? || t.pc.Retry? ==> t.num > 0 && Rest(t.pc) != [] && Rest(t.pc)[0] < |s.queues|
                                         && Event(b, t.num - 1) in s.queues[Rest(t.pc)[0]].overflowed)
  }

  // The queues an event was meant for have been served, or its thread is still at it.
  predicate TargetOk(s: State, e: Event) {
    e in s.targets ==>
      && e.src < |s.threads| && e.num < s.threads[e.src].num
      && forall q :: q in s.targets[e] ==>
           && q < |s.queues|
           && (e in s.queues[q].served || (e.num == s.threads[e.src].num - 1 && q in Rest(s.threads[e.src].pc)))
  }

  ghost predicate Inv(s: State) {
    && Distinct(s.subscribed) && (forall q :: q in s.subscribed ==> q < |s.queues|)
    && (forall q :: 0 <= q < |s.queues| ==> QueueOk(s.queues[q]))
    && (forall b, q :: Behind(s, b, q))
    && (forall b :: ThreadOk(s, b))
    && (forall e :: TargetOk(s, e))
    && (forall q, e :: 0 <= q < |s.queues| && e in s.queues[q].served ==> e.src < |s.threads|)
  }

  lemma {:induction false} WithoutKeeps(qs: seq<nat>, q: nat)
    requires Distinct(qs)
    ensures Distinct(Without(qs, q)) && forall r :: r in Without(qs, q) ==> r in qs
  {
    if qs != [] && qs[0] != q {
      var rest := qs[1..];
      assert Distinct(rest) && qs[0] !in rest;
      WithoutKeeps(rest, q);
      assert Without(qs, q) == [qs[0]] + Without(rest, q);
    }
  }

  lemma EnterOk(q: Queue, e: Event)
    requires QueueOk(q) && |q.items| < CAPACITY
    requires forall i :: 0 <= i < |q.entered| && q.entered[i].src == e.src ==> q.entered[i].num < e.num
    ensures QueueOk(Enter(q, e))
  {
    var v := Enter(q, e);
    assert v.entered[|q.fates|..] == q.entered[|q.fates|..] + [e];
    assert v.entered[|q.entered|] == e;
    assert forall i :: 0 <= i < |q.entered| ==> v.entered[i] == q.entered[i];
    assert forall x :: x in q.entered ==> x in v.entered;
  }

  lemma LeaveOk(q: Queue, fate: Fate)
    requires QueueOk(q) && q.items != [] && (fate.Evicted? ==> fate.cause in q.overflowed)
    ensures QueueOk(Leave(q, fate))
  {
  }

  lemma SubscribeOk(s: State)
    requires Inv(s)
    ensures Inv(Step(s, Subscribe))
  {
    var t := Step(s, Subscribe);
    assert t.queues[|s.queues|] == Queue([], [], [], {}, {});
    assert forall q :: 0 <= q < |s.queues| ==> t.queues[q] == s.queues[q];
    forall q | 0 <= q < |t.queues| ensures QueueOk(t.queues[q]) {
      assert q < |s.queues| ==> QueueOk(s.queues[q]);
    }
    assert Distinct(t.subscribed) by {
      assert forall i :: 0 <= i < |s.subscribed| ==> s.subscribed[i] in s.subscribed;
    }
    forall b, q ensures Behind(t, b, q) { assert Behind(s, b, q); }
    forall b ensures ThreadOk(t, b) { assert ThreadOk(s, b); }
    forall e ensures TargetOk(t, e) { assert TargetOk(s, e); }
  }

  lemma OutsideOk(s: State, a: Action)
    requires Inv(s) && Enabled(s, a) && (a.Unsubscribe? || a.NewThread?)
    ensures Inv(Step(s, a))
  {
    var t := Step(s, a);
    if a.Unsubscribe? { WithoutKeeps(s.subscribed, a.q); }
    forall b, q ensures Behind(t, b, q) { assert Behind(s, b, q); }
    forall b ensures ThreadOk(t, b) { assert ThreadOk(s, b); }
    forall e ensures TargetOk(t, e) { assert TargetOk(s, e); }
  }

  lemma BeginOk(s: State, b: nat)
    requires Inv(s) && Enabled(s, Begin(b))
    ensures Inv(Step(s, Begin(b)))
  {
    var t := Step(s, Begin(b));
    forall c, q ensures Behind(t, c, q) { assert Behind(s, c, q); }
    forall c ensures ThreadOk(t, c) { assert ThreadOk(s, c); }
    forall e ensures TargetOk(t, e) { assert TargetOk(s, e); }
  }

  lemma ConsumeOk(s: State, q: nat)
    requires Inv(s) && Enabled(s, Consume(q))
    ensures Inv(Step(s, Consume(q)))
  {
    var t := Step(s, Consume(q));
    LeaveOk(s.queues[q], Delivered);
    forall b, r ensures Behind(t, b, r) { assert Behind(s, b, r); }
    forall b ensures ThreadOk(t, b) { assert ThreadOk(s, b); }
    forall e ensures TargetOk(t, e) { assert TargetOk(s, e); }
  }

  // What a broadcaster's step does to the queue in front of it.
  lemma GoQueueOk(s: State, b: nat)
    requires Inv(s) && Enabled(s, Go(b)) && Rest(s.threads[b].pc) != []
    ensures QueueOk(GoStep(s, b).queues[Rest(s.threads[b].pc)[0]])
  {
    var pc, q, e := s.threads[b].pc, Rest(s.threads[b].pc)[0], Current(s, b);
    var v := s.queues[q];
    assert Behind(s, b, q) && ThreadOk(s, b);
    if !pc.Evict? && |v.items| < CAPACITY {
      EnterOk(v, e);
    } else if pc.Evict? && v.items != [] {
      LeaveOk(v, Evicted(e));
    }
  }

  // What a broadcaster's step changes: its own counter, and the queue it is at, by at most its event.
  lemma GoTouches(s: State, b: nat)
    requires Inv(s) && Enabled(s, Go(b))
    ensures var t := GoStep(s, b);
            && t.subscribed == s.subscribed && t.targets == s.targets
            && |t.queues| == |s.queues| && |t.threads| == |s.threads|
            && (forall c :: 0 <= c < |s.threads| ==>
                  t.threads[c].num == s.threads[c].num && (c != b ==> t.threads[c] == s.threads[c]))
            && (forall r :: r in Rest(t.threads[b].pc) ==> r in Rest(s.threads[b].pc))
            && (forall r :: 0 <= r < |s.queues| ==> s.queues[r].overflowed <= t.queues[r].overflowed)
    ensures var t := GoStep(s, b);
            forall r :: 0 <= r < |s.queues| ==>
              || t.queues[r].served == s.queues[r].served
              || (t.queues[r].served == s.queues[r].served + {Current(s, b)} && r !in Rest(t.threads[b].pc))
  {
    assert ThreadOk(s, b);
  }

  lemma GoThreadOk(s: State, b: nat, c: nat)
    requires Inv(s) && Enabled(s, Go(b))
    ensures ThreadOk(GoStep(s, b), c)
  {
    var t := GoStep(s, b);
    GoTouches(s, b);
    assert ThreadOk(s, c) && ThreadOk(s, b);
    if c == b {
      var pc := s.threads[b].pc;
      if Rest(pc) != [] {
        assert [Rest(pc)[0]] + Rest(pc)[1..] == Rest(pc);
        assert Distinct(Rest(pc)[1..]);
      }
    }
  }

  lemma GoStaysBehind(s: State, b: nat, c: nat, r: nat)
    requires Inv(s) && Enabled(s, Go(b))
    ensures Behind(GoStep(s, b), c, r)
  {
    GoTouches(s, b);
    assert Behind(s, c, r);
  }

  lemma GoTargetsOk(s: State, b: nat)
    requires Inv(s) && Enabled(s, Go(b))
    ensures forall e :: TargetOk(GoStep(s, b), e)
  {
    var t := GoStep(s, b);
    forall e ensures TargetOk(t, e) {
      assert TargetOk(s, e) && ThreadOk(s, b);
    }
  }

  lemma GoOk(s: State, b: nat)
    requires Inv(s) && Enabled(s, Go(b))
    ensures Inv(GoStep(s, b))
  {
    var t := GoStep(s, b);
    GoTouches(s, b);
    forall c ensures ThreadOk(t, c) { GoThreadOk(s, b, c); }
    GoTargetsOk(s, b);
    forall c, r ensures Behind(t, c, r) { GoStaysBehind(s, b, c, r); }
    forall q | 0 <= q < |t.queues| ensures QueueOk(t.queues[q]) { GoQueuesOk(s, b, q); }
  }

  lemma GoQueuesOk(s: State, b: nat, q: nat)
    requires Inv(s) && Enabled(s, Go(b)) && q < |GoStep(s, b).queues|
    ensures QueueOk(GoStep(s, b).queues[q])
  {
    if Rest(s.threads[b].pc) != [] && q == Rest(s.threads[b].pc)[0] {
      GoQueueOk(s, b);
    } else {
      assert GoStep(s, b).queues[q] == s.queues[q];
    }
  }

  lemma StepOk(s: State, a: Action)
    requires Inv(s) && Enabled(s, a)
    ensures Inv(Step(s, a))
  {
    match a
    case Subscribe => SubscribeOk(s);
    case Unsubscribe(q) => OutsideOk(s, a);
    case NewThread => OutsideOk(s, a);
    case Begin(b) => BeginOk(s, b);
    case Go(b) => GoOk(s, b);
    case Consume(q) => ConsumeOk(s, q);
  }

  lemma {:induction false} InvHolds(s: State, acts: seq<Action>, t: State)
    requires Inv(s) && Reaches(s, acts, t)
    ensures Inv(t)
    decreases |acts|
  {
    if acts != [] {
      StepOk(s, acts[0]);
      InvHolds(Step(s, acts[0]), acts[1..], t);
    }
  }

  // ---------- theorems ----------

  /** Over every interleaving: a queue never holds more than 100 events, its contents are the end of what
      was put into it, no event enters it twice, and each broadcaster's events enter in the order they
      were broadcast. */
  lemma QueuesKeepOrder(acts: seq<Action>, t: State, q: nat)
    requires Reaches(INIT, acts, t) && q < |t.queues|
    ensures |t.queues[q].items| <= 100
    ensures |t.queues[q].items| <= |t.queues[q].entered|
    ensures t.queues[q].items == t.queues[q].entered[|t.queues[q].entered| - |t.queues[q].items|..]
    ensures forall i, j :: 0 <= i < j < |t.queues[q].entered| ==> t.queues[q].entered[i] != t.queues[q].entered[j]
    ensures forall i, j :: 0 <= i < j < |t.queues[q].entered|
                           && t.queues[q].entered[i].src == t.queues[q].entered[j].src
              ==> t.queues[q].entered[i].num < t.queues[q].entered[j].num
  {
    InvHolds(INIT, acts, t);
  }

  // ---------- what has happened in a run ----------

  // Some step of the run from s was as p says.
  ghost predicate Happened(s: State, acts: seq<Action>, p: (State, Action) -> bool)
    decreases |acts|
  {
    acts != [] && Enabled(s, acts[0]) && (p(s, acts[0]) || Happened(Step(s, acts[0]), acts[1..], p))
  }

  // Only such a step makes f true, and it stays true.
  ghost predicate Causes(p: (State, Action) -> bool, f: State -> bool) {
    forall s, a :: Inv(s) && Enabled(s, a) ==> (f(Step(s, a)) <==> f(s) || p(s, a))
  }

  lemma {:induction false} TrueIffHappened(s: State, acts: seq<Action>, t: State, p: (State, Action) -> bool,
      f: State -> bool)
    requires Inv(s) && Reaches(s, acts, t) && Causes(p, f)
    ensures f(t) <==> f(s) || Happened(s, acts, p)
    decreases |acts|
  {
    if acts != [] {
      StepOk(s, acts[0]);
      TrueIffHappened(Step(s, acts[0]), acts[1..], t, p, f);
    }
  }

  // ---------- who is subscribed, and what is meant for whom ----------

  lemma {:induction false} WithoutIsExact(qs: seq<nat>, q: nat)
    requires Distinct(qs)
    ensures forall r :: r in Without(qs, q) <==> r in qs && r != q
  {
    if qs != [] {
      assert Distinct(qs[1..]) && qs[0] !in qs[1..];
      assert forall r :: r in qs <==> r == qs[0] || r in qs[1..];
      WithoutIsExact(qs[1..], q);
    }
  }

  predicate Unsubscribes(s: State, a: Action, q: nat) { q < |s.queues| && a == Unsubscribe(q) }

  predicate IsUnsubscribed(s: State, q: nat) { q < |s.queues| && q !in s.subscribed }

  lemma UnsubscribedStep(s: State, a: Action, q: nat)
    requires Inv(s) && Enabled(s, a)
    ensures IsUnsubscribed(Step(s, a), q) <==> IsUnsubscribed(s, q) || Unsubscribes(s, a, q)
  {
    match a
    case Subscribe =>
    case Unsubscribe(r) => WithoutIsExact(s.subscribed, r);
    case NewThread =>
    case Begin(b) =>
    case Go(b) => GoTouches(s, b);
    case Consume(r) =>
  }

  /** A queue is subscribed from its creation until it is unsubscribed, and only that long. */
  lemma SubscribedIff(acts: seq<Action>, t: State, q: nat)
    requires Reaches(INIT, acts, t) && q < |t.queues|
    ensures q !in t.subscribed <==> Happened(INIT, acts, (s: State, a: Action) => q < |s.queues| && a == Unsubscribe(q))
  {
    var p, f := (s: State, a: Action) => q < |s.queues| && a == Unsubscribe(q), s => IsUnsubscribed(s, q);
    forall s, a | Inv(s) && Enabled(s, a) ensures f(Step(s, a)) <==> f(s) || p(s, a) {
      UnsubscribedStep(s, a, q);
    }
    TrueIffHappened(INIT, acts, t, p, f);
  }

  // Thread e.src begins to broadcast e while queue q is subscribed.
  predicate Announces(s: State, a: Action, e: Event, q: nat) {
    a == Begin(e.src) && e.src < |s.threads| && s.threads[e.src].num == e.num && q in s.subscribed
  }

  predicate MeantFor(s: State, e: Event, q: nat) { e in s.targets && q in s.targets[e] }

  lemma MeantForStep(s: State, a: Action, e: Event, q: nat)
    requires Inv(s) && Enabled(s, a)
    ensures MeantFor(Step(s, a), e, q) <==> MeantFor(s, e, q) || Announces(s, a, e, q)
  {
    assert TargetOk(s, e);
    if a.Go? { GoTouches(s, a.b); }
  }

  /** An event is meant for exactly the queues that were subscribed when its broadcast began. */
  lemma MeantForIff(acts: seq<Action>, t: State, e: Event, q: nat)
    requires Reaches(INIT, acts, t)
    ensures e in t.targets && q in t.targets[e] <==> Happened(INIT, acts, (s, a) => Announces(s, a, e, q))
  {
    var p, f := (s, a) => Announces(s, a, e, q), s => MeantFor(s, e, q);
    forall s, a | Inv(s) && Enabled(s, a) ensures f(Step(s, a)) <==> f(s) || p(s, a) {
      MeantForStep(s, a, e, q);
    }
    TrueIffHappened(INIT, acts, t, p, f);
  }

  // ---------- losing events ----------

  // Thread b is at queue q with event e.
  predicate Serves(s: State, b: nat, e: Event, q: nat) {
    && b < |s.threads| && s.threads[b].num > 0 && Current(s, b) == e
    && Rest(s.threads[b].pc) != [] && Rest(s.threads[b].pc)[0] == q && q < |s.queues|
  }

  // It tries to put e into the queue and finds it full.
  predicate FindsFull(s: State, a: Action, e: Event, q: nat) {
    a == Go(e.src) && Serves(s, e.src, e, q) && s.threads[e.src].pc.Try? && |s.queues[q].items| == 100
  }

  // It gives e up: there is nothing to push out any more, or the room it made has been taken.
  predicate GivesUp(s: State, a: Action, e: Event, q: nat) {
    && a == Go(e.src) && Serves(s, e.src, e, q)
    && ((s.threads[e.src].pc.Evict? && s.queues[q].items == [])
        || (s.threads[e.src].pc.Retry? && |s.queues[q].items| == 100))
  }

  // It pushes out the oldest event of the queue, which is `lost`.
  predicate PushesOut(s: State, a: Action, lost: Event, q: nat) {
    && a.Go? && a.b < |s.threads| && s.threads[a.b].num > 0 && Serves(s, a.b, Current(s, a.b), q)
    && s.threads[a.b].pc.Evict? && s.queues[q].items != [] && s.queues[q].items[0] == lost
  }

  predicate Overflowed(s: State, e: Event, q: nat) { q < |s.queues| && e in s.queues[q].overflowed }

  predicate GivenUp(s: State, e: Event, q: nat) {
    q < |s.queues| && e in s.queues[q].served && e !in s.queues[q].entered
  }

  // What became of an event that has entered a queue.
  predicate Left(q: Queue, e: Event, fate: Fate) {
    exists i :: 0 <= i < |q.fates| && i < |q.entered| && q.entered[i] == e && q.fates[i] == fate
  }

  predicate WasPushedOut(q: Queue, e: Event) {
    exists i :: 0 <= i < |q.fates| && i < |q.entered| && q.entered[i] == e && q.fates[i].Evicted?
  }

  predicate PushedOut(s: State, e: Event, q: nat) { q < |s.queues| && WasPushedOut(s.queues[q], e) }

  lemma OverflowedStep(s: State, a: Action, e: Event, q: nat)
    requires Inv(s) && Enabled(s, a)
    ensures Overflowed(Step(s, a), e, q) <==> Overflowed(s, e, q) || FindsFull(s, a, e, q)
  {
    if a.Go? { assert ThreadOk(s, a.b); }
    if q < |s.queues| { assert QueueOk(s.queues[q]); }
  }

  lemma GivenUpStep(s: State, a: Action, e: Event, q: nat)
    requires Inv(s) && Enabled(s, a)
    ensures GivenUp(Step(s, a), e, q) <==> GivenUp(s, e, q) || GivesUp(s, a, e, q)
  {
    if q < |s.queues| { assert QueueOk(s.queues[q]); }
    if a.Go? { assert ThreadOk(s, a.b) && Behind(s, a.b, q); }
  }

  // A queue to which at most one event has been added, or from which at most one has been taken.
  predicate Grown(v: Queue, w: Queue) {
    v.entered <= w.entered && v.fates <= w.fates && |w.fates| <= |v.fates| + 1
  }

  lemma PushedOutGrows(v: Queue, w: Queue, e: Event)
    requires Fifo(v) && Fifo(w) && Grown(v, w)
    ensures WasPushedOut(w, e)
            <==> WasPushedOut(v, e) || (v.fates < w.fates && w.fates[|v.fates|].Evicted? && w.entered[|v.fates|] == e)
  {
    if WasPushedOut(v, e) {
      var i :| 0 <= i < |v.fates| && v.entered[i] == e && v.fates[i].Evicted?;
      assert w.entered[i] == e && w.fates[i].Evicted?;
    }
    if WasPushedOut(w, e) {
      var i :| 0 <= i < |w.fates| && w.entered[i] == e && w.fates[i].Evicted?;
      assert i < |v.fates| ==> v.entered[i] == e && v.fates[i].Evicted?;
    }
  }

  // The step takes the oldest event out of the queue as somebody's put had found it full.
  predicate Evicts(s: State, a: Action, q: nat) {
    && a.Go? && a.b < |s.threads| && s.threads[a.b].pc.Evict? && q < |s.queues| && s.queues[q].items != []
    && Rest(s.threads[a.b].pc) != [] && Rest(s.threads[a.b].pc)[0] == q
  }

  lemma StepGrows(s: State, a: Action, q: nat)
    requires Inv(s) && Enabled(s, a) && q < |s.queues|
    ensures q < |Step(s, a).queues| && var v, w := s.queues[q], Step(s, a).queues[q];
            && Grown(v, w)
            && (Evicts(s, a, q) <==> v.fates < w.fates && w.fates[|v.fates|].Evicted?)
            && (v.fates < w.fates ==> v.items != [] && |v.fates| < |w.entered| && w.entered[|v.fates|] == v.items[0])
  {
    assert QueueOk(s.queues[q]);
    if a.Go? { assert ThreadOk(s, a.b); }
  }

  lemma PushedOutStep(s: State, a: Action, e: Event, q: nat)
    requires Inv(s) && Enabled(s, a)
    ensures PushedOut(Step(s, a), e, q) <==> PushedOut(s, e, q) || PushesOut(s, a, e, q)
  {
    if q < |s.queues| {
      StepOk(s, a);
      StepGrows(s, a, q);
      assert QueueOk(s.queues[q]) && QueueOk(Step(s, a).queues[q]);
      PushedOutGrows(s.queues[q], Step(s, a).queues[q], e);
      assert PushesOut(s, a, e, q) <==> Evicts(s, a, q) && s.queues[q].items[0] == e by {
        if a.Go? { assert ThreadOk(s, a.b); }
      }
    }
  }

  // An event that has entered a queue is still there, or was read, or was pushed out.
  lemma EnteredFate(v: Queue, e: Event)
    requires QueueOk(v) && e in v.entered
    ensures e in v.items <==> !Left(v, e, Delivered) && !WasPushedOut(v, e)
    ensures !(Left(v, e, Delivered) && WasPushedOut(v, e))
  {
    var i :| 0 <= i < |v.entered| && v.entered[i] == e;
    assert forall j :: 0 <= j < |v.entered| && v.entered[j] == e ==> j == i;
    if i < |v.fates| {
      assert e !in v.items;
    } else {
      assert v.items[i - |v.fates|] == e;
    }
  }

  lemma OverflowedIff(acts: seq<Action>, t: State, e: Event, q: nat)
    requires Reaches(INIT, acts, t)
    ensures Overflowed(t, e, q) <==> Happened(INIT, acts, (s, a) => FindsFull(s, a, e, q))
  {
    var p, f := (s, a) => FindsFull(s, a, e, q), s => Overflowed(s, e, q);
    forall s, a | Inv(s) && Enabled(s, a) ensures f(Step(s, a)) <==> f(s) || p(s, a) {
      OverflowedStep(s, a, e, q);
    }
    TrueIffHappened(INIT, acts, t, p, f);
  }

  /** A broadcaster that is through with a queue did not put its event there if and only if at some moment
      it found the queue full, and then either found it empty when it came to make room, or found it full
      again when it had. */
  lemma GivenUpIff(acts: seq<Action>, t: State, e: Event, q: nat)
    requires Reaches(INIT, acts, t) && q < |t.queues| && e in t.queues[q].served
    ensures e !in t.queues[q].entered <==> Happened(INIT, acts, (s, a) => GivesUp(s, a, e, q))
    ensures e !in t.queues[q].entered ==> Happened(INIT, acts, (s, a) => FindsFull(s, a, e, q))
  {
    var p, f := (s, a) => GivesUp(s, a, e, q), s => GivenUp(s, e, q);
    forall s, a | Inv(s) && Enabled(s, a) ensures f(Step(s, a)) <==> f(s) || p(s, a) {
      GivenUpStep(s, a, e, q);
    }
    TrueIffHappened(INIT, acts, t, p, f);
    InvHolds(INIT, acts, t);
    assert QueueOk(t.queues[q]);
    OverflowedIff(acts, t, e, q);
  }

  lemma PushedOutIff(acts: seq<Action>, t: State, e: Event, q: nat)
    requires Reaches(INIT, acts, t)
    ensures PushedOut(t, e, q) <==> Happened(INIT, acts, (s, a) => PushesOut(s, a, e, q))
  {
    var p, f := (s, a) => PushesOut(s, a, e, q), s => PushedOut(s, e, q);
    forall s, a | Inv(s) && Enabled(s, a) ensures f(Step(s, a)) <==> f(s) || p(s, a) {
      PushedOutStep(s, a, e, q);
    }
    TrueIffHappened(INIT, acts, t, p, f);
  }

  /** An event is lost to a subscriber -- it is not in the queue and was never read from it -- if and only
      if its broadcaster gave it up or some broadcaster pushed it out. */
  lemma LostIff(acts: seq<Action>, t: State, e: Event, q: nat)
    requires Reaches(INIT, acts, t) && q < |t.queues| && e in t.queues[q].served
    ensures e !in t.queues[q].items && !Left(t.queues[q], e, Delivered) <==>
              || Happened(INIT, acts, (s, a) => GivesUp(s, a, e, q))
              || Happened(INIT, acts, (s, a) => PushesOut(s, a, e, q))
  {
    GivenUpIff(acts, t, e, q);
    PushedOutIff(acts, t, e, q);
    InvHolds(INIT, acts, t);
    LostFate(t.queues[q], e);
  }

  lemma LostFate(v: Queue, e: Event)
    requires QueueOk(v)
    ensures e !in v.items && !Left(v, e, Delivered) <==> e !in v.entered || WasPushedOut(v, e)
  {
    if e in v.entered {
      EnteredFate(v, e);
    } else {
      assert forall i :: 0 <= i < |v.items| ==> v.items[i] == v.entered[|v.fates| + i];
    }
  }

  /** Either way a put had found the queue full: once a broadcaster is through with a queue it meant its
      event for, the event is there, or was read, or its own put had found the queue full, or it was pushed
      out on account of an event whose put had. */
  lemma LostOnlyWhenFull(acts: seq<Action>, t: State, e: Event, q: nat)
    requires Reaches(INIT, acts, t) && e in t.targets && q in t.targets[e]
    requires !(e.src < |t.threads| && e.num == t.threads[e.src].num - 1 && q in Rest(t.threads[e.src].pc))
    ensures q < |t.queues| && e in t.queues[q].served
    ensures || e in t.queues[q].items || Left(t.queues[q], e, Delivered)
            || Happened(INIT, acts, (s, a) => FindsFull(s, a, e, q))
            || exists cause :: Left(t.queues[q], e, Evicted(cause))
                && Happened(INIT, acts, (s, a) => FindsFull(s, a, cause, q))
  {
    InvHolds(INIT, acts, t);
    assert TargetOk(t, e);
    var v := t.queues[q];
    OverflowedIff(acts, t, e, q);
    if e !in v.overflowed {
      EnteredFate(v, e);
      if WasPushedOut(v, e) {
        var i :| 0 <= i < |v.fates| && v.entered[i] == e && v.fates[i].Evicted?;
        OverflowedIff(acts, t, v.fates[i].cause, q);
        assert Left(v, e, Evicted(v.fates[i].cause));
      }
    }
  }

  // ---------- an event can be given up although there is room for it ----------

  ghost predicate Kept(inv: State -> bool) {
    forall s, a :: inv(s) && Enabled(s, a) ==> inv(Step(s, a))
  }

  lemma Then(inv: State -> bool, s: State, a: Action) returns (t: State)
    requires Kept(inv) && inv(s) && Enabled(s, a)
    ensures t == Step(s, a) && inv(t)
  {
    t := Step(s, a);
  }

  // One subscriber, one broadcaster, n events in the queue.
  predicate Filled(s: State, n: nat) {
    s.subscribed == [0] && |s.queues| == 1 && |s.queues[0].items| == n && s.threads == [Broadcaster(Idle, n)]
  }

  lemma FillOne(inv: State -> bool, s: State, n: nat) returns (t: State)
    requires Kept(inv) && inv(s) && Filled(s, n) && n < CAPACITY
    ensures inv(t) && Filled(t, n + 1)
  {
    t := Then(inv, s, Begin(0));
    assert t.threads == [Broadcaster(Try([0]), n + 1)];
    t := Then(inv, t, Go(0));
    assert [0][1..] == [] && t.threads == [Broadcaster(Try([]), n + 1)];
    t := Then(inv, t, Go(0));
    assert t.threads == [Broadcaster(Idle, n + 1)];
  }

  lemma {:induction false} Fill(inv: State -> bool, n: nat) returns (t: State)
    requires Kept(inv) && inv(INIT) && n <= CAPACITY
    ensures inv(t) && Filled(t, n)
  {
    if n == 0 {
      t := Then(inv, INIT, Subscribe);
      t := Then(inv, t, NewThread);
    } else {
      t := Fill(inv, n - 1);
      t := FillOne(inv, t, n - 1);
    }
  }

  lemma {:induction false} Drain(inv: State -> bool, s: State) returns (t: State)
    requires Kept(inv) && inv(s) && |s.queues| == 1
    ensures inv(t) && |t.queues| == 1 && t.queues[0].items == [] && t.threads == s.threads && t.targets == s.targets
    decreases |s.queues[0].items|
  {
    t := s;
    if s.queues[0].items != [] {
      t := Then(inv, s, Consume(0));
      t := Drain(inv, t);
    }
  }

  // The put of event number 100 fails.
  lemma Overflow(inv: State -> bool) returns (t: State)
    requires Kept(inv) && inv(INIT)
    ensures inv(t) && |t.queues| == 1 && t.threads == [Broadcaster(Evict([0]), CAPACITY + 1)]
    ensures Event(0, CAPACITY) in t.targets && t.targets[Event(0, CAPACITY)] == [0]
  {
    t := Fill(inv, CAPACITY);
    t := Then(inv, t, Begin(0));
    assert t.threads == [Broadcaster(Try([0]), CAPACITY + 1)];
    t := Then(inv, t, Go(0));
    assert t.threads[0].pc == Evict([0] + [0][1..]) && [0] + [0][1..] == [0];
  }

  // A thread about to make room in an empty queue drops its event.
  lemma Drops(inv: State -> bool, s: State) returns (t: State)
    requires Kept(inv) && inv(s) && Inv(s) && |s.queues| == 1 && s.queues[0].items == []
    requires s.threads == [Broadcaster(Evict([0]), CAPACITY + 1)]
    ensures inv(t) && t.targets == s.targets && |t.queues| == 1 && t.queues[0].items == []
    ensures Event(0, CAPACITY) in t.queues[0].served && Event(0, CAPACITY) !in t.queues[0].entered
  {
    assert Behind(s, 0, 0) && QueueOk(s.queues[0]);
    t := Then(inv, s, Go(0));
  }

  ghost predicate Reached(s: State) { exists acts :: Reaches(INIT, acts, s) }

  lemma {:induction false} ReachesOneMore(s: State, acts: seq<Action>, t: State, a: Action)
    requires Reaches(s, acts, t) && Enabled(t, a)
    ensures Reaches(s, acts + [a], Step(t, a))
    decreases |acts|
  {
    if acts == [] {
      assert (acts + [a])[1..] == [];
    } else {
      ReachesOneMore(Step(s, acts[0]), acts[1..], t, a);
      assert (acts + [a])[1..] == acts[1..] + [a];
    }
  }

  lemma ReachedIsKept()
    ensures Kept(Reached) && Reached(INIT)
  {
    assert Reaches(INIT, [], INIT);
    forall s, a | Reached(s) && Enabled(s, a) ensures Reached(Step(s, a)) {
      var acts :| Reaches(INIT, acts, s);
      ReachesOneMore(INIT, acts, s, a);
    }
  }

  lemma ReachedIsOk(s: State)
    requires Reached(s)
    ensures Inv(s)
  {
    var acts :| Reaches(INIT, acts, s);
    InvHolds(INIT, acts, s);
  }

  /** Between the failed put and the `get_nowait` that is to make room the subscriber can read everything:
      the get then raises on the empty queue, and the event is dropped although there is room for it. */
  lemma DropOnEmptyQueueIsReachable() returns (t: State, e: Event)
    ensures Reached(t) && |t.queues| == 1 && t.queues[0].items == []
    ensures e in t.targets && t.targets[e] == [0] && e in t.queues[0].served && e !in t.queues[0].entered
  {
    ReachedIsKept();
    t := Overflow(Reached);
    t := Drain(Reached, t);
    ReachedIsOk(t);
    t := Drops(Reached, t);
    e := Event(0, CAPACITY);
  }
}
