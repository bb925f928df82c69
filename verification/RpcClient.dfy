/** The sequential client of scripts/phd2_rpc_smoke.py: one connection, one request at a time, reading
    lines until the one that answers it. */
module RpcClient {
  import opened Wrappers
  import opened JsonRpc

  datatype Outcome =
    | Found(msg: Json)
    | Undecodable   // json.loads raised
    | Closed        // end of the stream
    | Late          // the deadline passed

  // The position of the first line that answers request k; the length of the stream when none does.
  function FirstAnswer(stream: seq<Line>, k: int): (f: nat)
    ensures f <= |stream|
    ensures f < |stream| ==> LineAnswers(stream[f], k)
    ensures forall j :: 0 <= j < f ==> !LineAnswers(stream[j], k)
  {
    if stream == [] then 0
    else if LineAnswers(stream[0], k) then 0
    else
      var rest := FirstAnswer(stream[1..], k);
      assert forall j :: 1 <= j < rest + 1 ==> stream[j] == stream[1..][j - 1];
      1 + rest
  }

  /** `request` for id k from position p on; the deadline passes after `budget` lines. The second
      component is the position it leaves the stream at. */
  function Scan(stream: seq<Line>, p: nat, k: int, budget: nat): (Outcome, nat)
    requires p <= |stream|
    decreases budget
  {
    if budget == 0 then (Late, p)
    else if p == |stream| then (Closed, p)
    else if stream[p].Malformed? then (Undecodable, p + 1)
    else if Answers(stream[p].msg, k) then (Found(stream[p].msg), p + 1)
    else Scan(stream, p + 1, k, budget - 1)
  }

  /** When no answer has gone by yet, a request finds exactly the first answer of the whole stream,
      unless time, the stream or a malformed line comes first. */
  lemma {:induction false} ScanFindsFirst(stream: seq<Line>, p: nat, k: int, budget: nat)
    requires p <= FirstAnswer(stream, k)
    ensures var f := FirstAnswer(stream, k);
            Scan(stream, p, k, budget).0.Found? <==>
              f < |stream| && f - p < budget && forall j :: p <= j < f ==> stream[j].Parsed?
    ensures var f := FirstAnswer(stream, k);
            Scan(stream, p, k, budget).0.Found? ==> Scan(stream, p, k, budget) == (Found(stream[f].msg), f + 1)
    decreases budget
  {
    var f := FirstAnswer(stream, k);
    if budget != 0 && p < |stream| && stream[p].Parsed? && !Answers(stream[p].msg, k) {
      assert p != f;
      ScanFindsFirst(stream, p + 1, k, budget - 1);
    }
  }

  // n requests, one after the other and without a deadline: the messages, and where the stream stands.
  function Replies(stream: seq<Line>, n: nat): (r: Option<(seq<Json>, nat)>)
    ensures r.Some? ==> |r.value.0| == n && r.value.1 <= |stream|
  {
    if n == 0 then Some(([], 0))
    else match Replies(stream, n - 1)
         case None => None
         case Some((msgs, p)) =>
           var (o, p') := Scan(stream, p, n, |stream| + 1);
           if o.Found? then (ScanStays(stream, p, n, |stream| + 1); Some((msgs + [o.msg], p'))) else None
  }

  lemma {:induction false} ScanStays(stream: seq<Line>, p: nat, k: int, budget: nat)
    requires p <= |stream|
    ensures p <= Scan(stream, p, k, budget).1 <= |stream|
    decreases budget
  {
    if budget != 0 && p < |stream| && stream[p].Parsed? && !Answers(stream[p].msg, k) {
      ScanStays(stream, p + 1, k, budget - 1);
    }
  }

  class Client {
    const stream: seq<Line>  // what the server sends on this connection
    var pos: nat
    var id: int

    constructor (stream: seq<Line>)
      ensures this.stream == stream && pos == 0 && id == 1
    {
      this.stream := stream;
      pos, id := 0, 1;
    }

    method NextId() returns (i: int)
      modifies `id
      ensures i == old(id) && id == old(id) + 1
    {
      i := id;
      id := id + 1;
    }

    method Request(budget: nat) returns (o: Outcome)
      requires pos <= |stream|
      modifies this
      ensures pos <= |stream| && id == old(id) + 1
      ensures (o, pos) == Scan(stream, old(pos), old(id), budget)
      ensures o.Found? ==> o.msg.Object? && Equals(o.msg.id, old(id)) && pos > 0 && stream[pos - 1] == Parsed(o.msg)
    {
      var reqId := NextId();
      var left := budget;
      while left > 0
        invariant pos <= |stream| && id == old(id) + 1
        invariant Scan(stream, pos, reqId, left) == Scan(stream, old(pos), old(id), budget)
      {
        if pos == |stream| { return Closed; }
        var line := stream[pos];
        pos := pos + 1;
        if line.Malformed? { return Undecodable; }
        if Answers(line.msg, reqId) {
          AnswersByEqualId(line.msg, reqId);
          return Found(line.msg);
        }
        left := left - 1;
      }
      return Late;
    }

    /** `call`: the result, or nothing when an exception is raised that is not the server's. */
    method Call(budget: nat) returns (r: Option<Result>)
      requires pos <= |stream|
      modifies this
      ensures pos <= |stream| && id == old(id) + 1
      ensures var (o, p) := Scan(stream, old(pos), old(id), budget);
              && pos == p && (r.None? <==> !o.Found?)
              && (o.Found? ==> o.msg.Object? && Equals(o.msg.id, old(id)) && r.Some?
                               && r.value == (if o.msg.error.Some? then Raised(o.msg.error.value)
                                              else Returned(o.msg.result)))
      ensures var f := FirstAnswer(stream, old(id));
              old(pos) <= f ==> (r.Some? <==> f < |stream| && f - old(pos) < budget &&
                                              forall j :: old(pos) <= j < f ==> stream[j].Parsed?)
    {
      ScanFound(pos, id, budget);
      if pos <= FirstAnswer(stream, id) { ScanFindsFirst(stream, pos, id, budget); }
      var o := Request(budget);
      r := if o.Found? then Some(Meaning(o.msg)) else None;
    }

    lemma {:induction false} ScanFound(p: nat, k: int, budget: nat)
      requires p <= |stream|
      ensures var o := Scan(stream, p, k, budget).0; o.Found? ==> o.msg.Object? && Answers(o.msg, k)
      decreases budget
    {
      if budget != 0 && p < |stream| && stream[p].Parsed? && !Answers(stream[p].msg, k) {
        ScanFound(p + 1, k, budget - 1);
      }
    }
  }
}
