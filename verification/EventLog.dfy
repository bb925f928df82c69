/** A subscriber's queue when each broadcast is one step: it keeps the last 100 events of those not yet
    read. */
module EventLog {
  import opened Sequences

  const CAPACITY := 100

  function KeepLast<T>(s: seq<T>): seq<T> {
    if |s| <= CAPACITY then s else s[|s| - CAPACITY..]
  }

  /** The last 100, or all if there are no more. */
  lemma KeepsTheLast100<T>(s: seq<T>)
    ensures |KeepLast(s)| == if |s| <= 100 then |s| else 100
    ensures KeepLast(s) == s[|s| - |KeepLast(s)|..]
  {
  }

  datatype Op<T> = Broadcast(e: T) | Read

  function AfterOp<T>(q: seq<T>, op: Op<T>): seq<T> {
    match op
    case Broadcast(e) => KeepLast(q + [e])
    case Read => if q == [] then q else q[1..]
  }

  function QueueAfter<T>(ops: seq<Op<T>>): seq<T> {
    if ops == [] then [] else AfterOp(QueueAfter(ops[..|ops| - 1]), ops[|ops| - 1])
  }

  // Every event since the subscription.
  function Log<T>(ops: seq<Op<T>>): seq<T> {
    if ops == [] then []
    else Log(ops[..|ops| - 1]) + if ops[|ops| - 1].Broadcast? then [ops[|ops| - 1].e] else []
  }

  /** The specification: how many events of the log have been read or given up. A read takes the oldest
      event that is neither read nor more than 100 events old. */
  function Passed<T>(ops: seq<Op<T>>): (n: nat)
    ensures n <= |Log(ops)|
  {
    if ops == [] then 0
    else
      var n, l := Passed(ops[..|ops| - 1]), |Log(ops[..|ops| - 1])|;
      if ops[|ops| - 1].Broadcast? || n == l then n else AfterRead(n, l)
  }

  function AfterRead(n: nat, l: nat): (m: nat)
    requires n < l
    ensures n < m <= l
  {
    (if l - n <= CAPACITY then n else l - CAPACITY) + 1
  }

  lemma OneMore<T>(ops: seq<Op<T>>, op: Op<T>)
    ensures QueueAfter(ops + [op]) == AfterOp(QueueAfter(ops), op)
    ensures Log(ops + [op]) == Log(ops) + if op.Broadcast? then [op.e] else []
    ensures Passed(ops + [op]) ==
              if op.Broadcast? || Passed(ops) == |Log(ops)| then Passed(ops) else AfterRead(Passed(ops), |Log(ops)|)
  {
    var more := ops + [op];
    assert more[..|more| - 1] == ops && more[|more| - 1] == op;
  }

  // Pushing out the oldest is keeping the last ones.
  lemma KeepThenAdd<T>(s: seq<T>, e: T)
    ensures KeepLast(KeepLast(s) + [e]) == KeepLast(s + [e])
  {
    var k := KeepLast(s);
    if |s| >= CAPACITY {
      var i := |s| - CAPACITY;
      assert k == s[i..];
      assert k + [e] == (s + [e])[i..];
      DropDrop(s + [e], i, 1);
    }
  }

  // Reading takes the oldest that is kept.
  lemma KeepThenTake<T>(log: seq<T>, n: nat)
    requires n < |log|
    ensures KeepLast(log[n..]) != [] && KeepLast(log[n..])[1..] == KeepLast(log[AfterRead(n, |log|)..])
  {
    var s := log[n..];
    if |s| > CAPACITY {
      var i := |log| - CAPACITY;
      DropDrop(log, n, i - n);
      assert KeepLast(s) == log[i..];
      DropDrop(log, i, 1);
      assert |log[i + 1..]| < CAPACITY;
    } else {
      DropDrop(log, n, 1);
    }
  }

  /** The queue is always the last 100 of the events not yet passed. */
  lemma {:induction false} QueueIsLastUnread<T>(ops: seq<Op<T>>)
    ensures QueueAfter(ops) == KeepLast(Log(ops)[Passed(ops)..])
  {
    if ops != [] {
      var before, last := ops[..|ops| - 1], ops[|ops| - 1];
      assert ops == before + [last];
      QueueIsLastUnread(before);
      OneMore(before, last);
      StillLastUnread(Log(before), Passed(before), last);
    }
  }

  lemma StillLastUnread<T>(log: seq<T>, n: nat, op: Op<T>)
    requires n <= |log|
    ensures AfterOp(KeepLast(log[n..]), op) ==
              if op.Broadcast? then KeepLast((log + [op.e])[n..])
              else if n == |log| then KeepLast(log[n..]) else KeepLast(log[AfterRead(n, |log|)..])
  {
    if op.Broadcast? {
      KeepThenAdd(log[n..], op.e);
      assert (log + [op.e])[n..] == log[n..] + [op.e];
    } else if n < |log| {
      KeepThenTake(log, n);
    } else {
      assert log[n..] == [];
    }
  }

  // The end of a log, as far as there is room for it.
  predicate IsEndOf<T(==)>(q: seq<T>, log: seq<T>) {
    |q| <= CAPACITY && |q| <= |log| && q == log[|log| - |q|..]
  }

  lemma KeptIsEnd<T>(log: seq<T>, n: nat)
    requires n <= |log|
    ensures IsEndOf(KeepLast(log[n..]), log) && (KeepLast(log[n..]) == [] <==> n == |log|)
  {
    if |log| - n > CAPACITY {
      DropDrop(log, n, |log| - n - CAPACITY);
    }
  }

  /** So it is a contiguous end of the log, at most 100 long, ending in the newest event unless that has
      been read. */
  lemma QueueIsEndOfLog<T>(ops: seq<Op<T>>)
    ensures IsEndOf(QueueAfter(ops), Log(ops)) && (QueueAfter(ops) == [] <==> Passed(ops) == |Log(ops)|)
  {
    QueueIsLastUnread(ops);
    KeptIsEnd(Log(ops), Passed(ops));
  }
}
