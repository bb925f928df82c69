/** The event queues with each broadcast taken as one step: pushing out the oldest event when a put
    finds the queue full is keeping the last 100. */
module EventHub {
  import opened Wrappers
  import opened EventLog

  class EventQueue {
    var items: seq<int>

    constructor ()
      ensures items == []
    {
      items := [];
    }

    // False for queue.Full.
    method PutNowait(e: int) returns (ok: bool)
      modifies this
      ensures ok == (|old(items)| < 100)
      ensures items == if ok then old(items) + [e] else old(items)
    {
      ok := |items| < CAPACITY;
      if ok { items := items + [e]; }
    }

    // None for queue.Empty.
    method GetNowait() returns (r: Option<int>)
      modifies this
      ensures old(items) == [] ==> r == None && items == []
      ensures old(items) != [] ==> r == Some(old(items)[0]) && items == old(items)[1..]
    {
      if items == [] { return None; }
      r, items := Some(items[0]), items[1..];
    }

    // Lines 167-174.
    method PutDroppingOldest(e: int)
      requires |items| <= CAPACITY
      modifies this
      ensures items == KeepLast(old(items) + [e])
      ensures items == if |old(items)| < 100 then old(items) + [e] else old(items)[1..] + [e]
    {
      var ok := PutNowait(e);
      if !ok {
        var _ := GetNowait();
        var _ := PutNowait(e);
      }
    }
  }

  class Hub {
    var queues: seq<EventQueue>

    ghost predicate Valid()
      reads this, queues
    {
      && (forall i, j :: 0 <= i < j < |queues| ==> queues[i] != queues[j])
      && (forall q :: q in queues ==> |q.items| <= CAPACITY)
    }

    constructor ()
      ensures Valid() && queues == []
    {
      queues := [];
    }

    method SubscribeEvents() returns (q: EventQueue)
      requires Valid()
      modifies `queues
      ensures Valid() && fresh(q) && q.items == [] && queues == old(queues) + [q]
    {
      q := new EventQueue();
      queues := queues + [q];
    }

    method UnsubscribeEvents(q: EventQueue)
      requires Valid()
      modifies `queues
      ensures Valid() && q !in queues
      ensures forall p :: p in queues <==> p in old(queues) && p != q
      ensures q !in old(queues) ==> queues == old(queues)
      ensures q in old(queues) ==> exists i :: 0 <= i < |old(queues)| && old(queues)[i] == q
                                              && queues == old(queues)[..i] + old(queues)[i + 1..]
    {
      var i := 0;
      while i < |queues| && queues[i] != q
        invariant i <= |queues| && q !in queues[..i]
      {
        i := i + 1;
      }
      if i < |queues| {
        queues := queues[..i] + queues[i + 1..];
      }
    }

    method BroadcastEvent(e: int)
      requires Valid()
      modifies queues
      ensures Valid()
      ensures forall q :: q in queues ==> q.items == KeepLast(old(q.items) + [e])
    {
      var i := 0;
      while i < |queues|
        invariant i <= |queues|
        invariant forall k :: 0 <= k < i ==> queues[k].items == KeepLast(old(queues[k].items) + [e])
        invariant forall k :: i <= k < |queues| ==> queues[k].items == old(queues[k].items)
      {
        queues[i].PutDroppingOldest(e);
        i := i + 1;
      }
    }

    // A broadcast, or a read by subscriber q, from q's point of view.
    method Do(q: EventQueue, op: Op<int>)
      requires Valid() && q in queues
      modifies queues
      ensures Valid() && q.items == AfterOp(old(q.items), op)
    {
      match op {
        case Broadcast(e) => BroadcastEvent(e);
        case Read => var _ := q.GetNowait();
      }
    }
  }

  /** A subscription's life: with nobody in between the steps of a broadcast, the queue always holds the
      last 100 of the events not yet passed. */
  method Subscription(hub: Hub, ops: seq<Op<int>>) returns (q: EventQueue)
    requires hub.Valid()
    modifies hub`queues, hub.queues
    ensures hub.Valid() && fresh(q) && hub.queues == old(hub.queues) + [q]
    ensures q.items == QueueAfter(ops) == KeepLast(Log(ops)[Passed(ops)..])
  {
    q := hub.SubscribeEvents();
    var i := 0;
    while i < |ops|
      invariant i <= |ops| && hub.Valid() && hub.queues == old(hub.queues) + [q] && fresh(q)
      invariant q.items == QueueAfter(ops[..i])
    {
      NextOp(ops, i);
      hub.Do(q, ops[i]);
      i := i + 1;
    }
    assert ops[..i] == ops;
    QueueIsLastUnread(ops);
  }

  lemma NextOp(ops: seq<Op<int>>, i: nat)
    requires i < |ops|
    ensures QueueAfter(ops[..i + 1]) == AfterOp(QueueAfter(ops[..i]), ops[i])
  {
    assert ops[..i + 1] == ops[..i] + [ops[i]];
    OneMore(ops[..i], ops[i]);
  }
}
