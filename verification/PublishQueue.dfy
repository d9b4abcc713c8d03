/** The bounded queue between the firmware and the MQTT client.

    Models EnqueuePublishMessage of lib/mqtt_presence/include/mqtt/PublishQueuePolicy.h and
    drainPublishQueue of lib/mqtt_presence/src/MqttPresenceClient.cpp. */
module PublishQueue {
  datatype Msg = Msg(isStatus: bool, payload: string)

  // ---------------- the policy, on values ----------------

  /** The first queued status, or the length. */
  function FirstStatus(q: seq<Msg>): (k: nat)
    ensures k <= |q| && (k < |q| ==> q[k].isStatus) && forall j :: 0 <= j < k ==> !q[j].isStatus
  {
    if q == [] || q[0].isStatus then 0 else 1 + FirstStatus(q[1..])
  }

  /** A full queue gives up its status, or else its oldest response. */
  function MakeRoom(q: seq<Msg>, capacity: nat): seq<Msg> {
    var k := FirstStatus(q);
    if |q| < capacity || q == [] then q
    else if k < |q| then q[..k] + q[k + 1..]
    else q[1..]
  }

  function Enqueue(q: seq<Msg>, capacity: nat, msg: Msg): seq<Msg> {
    if !msg.isStatus then MakeRoom(q, capacity) + [msg]
    else
      var k := FirstStatus(q);
      if k < |q| then q[k := msg] else if |q| >= capacity then q else q + [msg]
  }

  function Responses(q: seq<Msg>): seq<Msg> {
    if q == [] then [] else (if q[0].isStatus then [] else [q[0]]) + Responses(q[1..])
  }

  function Statuses(q: seq<Msg>): seq<Msg> {
    if q == [] then [] else (if q[0].isStatus then [q[0]] else []) + Statuses(q[1..])
  }

  // ---------------- the queue as the client holds it ----------------

  class Queue {
    var queue: seq<Msg>
    const capacity: nat

    constructor (limit: nat)
      ensures queue == [] && capacity == limit
    {
      queue, capacity := [], limit;
    }

    method EnqueuePublishMessage(msg: Msg)
      modifies this
      ensures queue == Enqueue(old(queue), capacity, msg)
    {
      if msg.isStatus {
        var k := FindStatus();
        if k < |queue| {
          queue := queue[k := msg];
          return;
        }
        if |queue| >= capacity {
          return;
        }
        queue := queue + [msg];
        return;
      }
      if |queue| >= capacity {
        var k := FindStatus();
        if k < |queue| {
          queue := queue[..k] + queue[k + 1..];
        } else if queue != [] {
          queue := queue[1..];
        }
      }
      queue := queue + [msg];
    }

    method FindStatus() returns (k: nat)
      ensures k == FirstStatus(queue)
    {
      k := 0;
      while k < |queue| && !queue[k].isStatus
        invariant k <= |queue| && FirstStatus(queue) == k + FirstStatus(queue[k..])
      {
        assert queue[k..][1..] == queue[k + 1..];
        k := k + 1;
      }
    }

    /** Publishes from the front until the queue is empty or the client takes no more, after
        accepting that many; the message it refuses goes back to the front. */
    method DrainPublishQueue(connected: bool, accepts: nat) returns (sent: seq<Msg>)
      modifies this
      ensures sent + queue == old(queue)
      ensures |sent| == if !connected then 0 else if accepts <= |old(queue)| then accepts else |old(queue)|
    {
      sent := [];
      if !connected {
        return;
      }
      while queue != []
        invariant sent + queue == old(queue) && |sent| <= accepts
        decreases |queue|
      {
        var msg := queue[0];
        queue := queue[1..];
        if |sent| == accepts {
          queue := [msg] + queue;
          break;
        }
        sent := sent + [msg];
      }
    }
  }

  // ---------------- what one call does ----------------

  lemma {:induction false} ResponsesConcat(a: seq<Msg>, b: seq<Msg>)
    ensures Responses(a + b) == Responses(a) + Responses(b)
    ensures Statuses(a + b) == Statuses(a) + Statuses(b)
  {
    if a == [] {
      assert a + b == b;
    } else {
      hide Responses, Statuses;
      var first, rest := a[0], a[1..];
      assert a == [first] + rest && a + b == [first] + (rest + b);
      ResponsesConcat(rest, b);
      OneMore(first, rest + b);
      OneMore(first, rest);
    }
  }

  lemma OneMore(m: Msg, q: seq<Msg>)
    ensures Responses([m] + q) == (if m.isStatus then [] else [m]) + Responses(q)
    ensures Statuses([m] + q) == (if m.isStatus then [m] else []) + Statuses(q)
  {
    assert ([m] + q)[1..] == q;
  }

  lemma {:induction false} AroundFirstStatus(q: seq<Msg>)
    ensures FirstStatus(q) == |q| ==> Responses(q) == q && Statuses(q) == []
    ensures var k := FirstStatus(q); k < |q| ==>
      q == q[..k] + [q[k]] + q[k + 1..] && Responses(q[..k]) == q[..k] && Statuses(q[..k]) == []
  {
    var k := FirstStatus(q);
    NoStatus(q[..k]);
    if k == |q| { assert q[..k] == q; }
  }

  lemma {:induction false} NoStatus(q: seq<Msg>)
    requires forall j :: 0 <= j < |q| ==> !q[j].isStatus
    ensures Responses(q) == q && Statuses(q) == []
  {
    if q != [] { NoStatus(q[1..]); }
  }

  lemma {:induction false} ResponsesConcat3(a: seq<Msg>, b: seq<Msg>, c: seq<Msg>)
    ensures Responses(a + b + c) == Responses(a) + Responses(b) + Responses(c)
    ensures Statuses(a + b + c) == Statuses(a) + Statuses(b) + Statuses(c)
  {
    ResponsesConcat(a + b, c);
    ResponsesConcat(a, b);
  }

  /** The first status taken out. */
  lemma {:induction false} StatusRemoved(q: seq<Msg>)
    requires FirstStatus(q) < |q| && |Statuses(q)| <= 1
    ensures var k := FirstStatus(q);
      && Responses(q[..k] + q[k + 1..]) == Responses(q) && Statuses(q[..k] + q[k + 1..]) == []
  {
    var k := FirstStatus(q);
    AroundFirstStatus(q);
    hide FirstStatus;
    ResponsesConcat3(q[..k], [q[k]], q[k + 1..]);
    ResponsesConcat(q[..k], q[k + 1..]);
  }

  /** The first status overwritten. */
  lemma {:induction false} StatusReplaced(q: seq<Msg>, msg: Msg)
    requires FirstStatus(q) < |q| && msg.isStatus && |Statuses(q)| <= 1
    ensures var k := FirstStatus(q); Responses(q[k := msg]) == Responses(q) && Statuses(q[k := msg]) == [msg]
  {
    var k := FirstStatus(q);
    AroundFirstStatus(q);
    hide FirstStatus;
    ResponsesConcat3(q[..k], [q[k]], q[k + 1..]);
    assert q[k := msg] == q[..k] + [msg] + q[k + 1..];
    ResponsesConcat3(q[..k], [msg], q[k + 1..]);
  }

  lemma {:induction false} RoomMade(q: seq<Msg>, capacity: nat)
    requires |Statuses(q)| <= 1 && |q| >= capacity && q != []
    ensures var r := MakeRoom(q, capacity);
      Statuses(r) == [] && (Responses(r) == if Statuses(q) == [] then Responses(q)[1..] else Responses(q))
  {
    AroundFirstStatus(q);
    if FirstStatus(q) < |q| {
      StatusRemoved(q);
      StatusReplaced(q, q[FirstStatus(q)]);
      assert q[FirstStatus(q) := q[FirstStatus(q)]] == q;
    } else {
      NoStatus(q[1..]);
    }
  }

  /** A response is appended. One is lost only when the queue is full and holds no status,
      and then it is the oldest. */
  lemma {:induction false} EnqueuedResponse(q: seq<Msg>, capacity: nat, msg: Msg)
    requires !msg.isStatus && |Statuses(q)| <= 1
    ensures var r := Enqueue(q, capacity, msg);
      && Responses(r) == (if |q| >= capacity && Statuses(q) == [] && q != [] then Responses(q)[1..] else Responses(q)) + [msg]
      && (Statuses(r) == if |q| >= capacity then [] else Statuses(q))
  {
    ResponsesConcat(MakeRoom(q, capacity), [msg]);
    if |q| >= capacity && q != [] {
      hide MakeRoom;
      RoomMade(q, capacity);
    }
  }

  /** A status never costs a response; it takes the place of the queued one, or is dropped
      by a queue full of responses. */
  lemma {:induction false} EnqueuedStatus(q: seq<Msg>, capacity: nat, msg: Msg)
    requires msg.isStatus && |Statuses(q)| <= 1
    ensures var r := Enqueue(q, capacity, msg);
      && Responses(r) == Responses(q)
      && (Statuses(r) == if Statuses(q) == [] && |q| >= capacity then [] else [msg])
  {
    AroundFirstStatus(q);
    if FirstStatus(q) < |q| {
      StatusReplaced(q, msg);
      StatusReplaced(q, q[FirstStatus(q)]);
      assert q[FirstStatus(q) := q[FirstStatus(q)]] == q;
    } else {
      ResponsesConcat(q, [msg]);
    }
  }

  // ---------------- whole runs ----------------

  datatype Act = Put(msg: Msg) | Drain(accepts: nat)

  /** The queue with its history: responses and the newest status offered to it, messages
      delivered, and how many responses were given up. */
  datatype State = State(q: seq<Msg>, offered: seq<Msg>, newest: seq<Msg>, delivered: seq<Msg>, lost: nat)

  function Smaller(a: nat, b: nat): nat { if a <= b then a else b }

  function Step(s: State, capacity: nat, a: Act): State {
    match a
    case Put(msg) =>
      var q := Enqueue(s.q, capacity, msg);
      if msg.isStatus then s.(q := q, newest := [msg])
      else s.(q := q, offered := s.offered + [msg],
              lost := s.lost + (if |s.q| >= capacity && Statuses(s.q) == [] && s.q != [] then 1 else 0))
    case Drain(accepts) =>
      var n := Smaller(accepts, |s.q|);
      s.(q := s.q[n..], delivered := s.delivered + s.q[..n])
  }

  function Run(s: State, capacity: nat, acts: seq<Act>): State
    decreases |acts|
  {
    if acts == [] then s else Run(Step(s, capacity, acts[0]), capacity, acts[1..])
  }

  /** a is b with some elements left out. */
  predicate Subsequence<T(==)>(a: seq<T>, b: seq<T>) {
    if a == [] then true
    else if b == [] then false
    else if a[|a| - 1] == b[|b| - 1] && Subsequence(a[..|a| - 1], b[..|b| - 1]) then true
    else Subsequence(a, b[..|b| - 1])
  }

  lemma {:induction false} SubsequenceAppend<T>(a: seq<T>, b: seq<T>, x: T)
    requires Subsequence(a, b)
    ensures Subsequence(a + [x], b + [x])
  {
    assert (a + [x])[..|a|] == a && (b + [x])[..|b|] == b;
  }

  /** Leaving out one more element, at position k. */
  lemma {:induction false} SubsequenceDrop<T>(a: seq<T>, b: seq<T>, k: nat)
    requires Subsequence(a, b) && k < |a|
    ensures Subsequence(a[..k] + a[k + 1..], b)
    decreases |b|
  {
    var c, a1, b1 := a[..k] + a[k + 1..], a[..|a| - 1], b[..|b| - 1];
    if a[|a| - 1] == b[|b| - 1] && Subsequence(a1, b1) {
      if k == |a| - 1 {
        assert c == a1;
        SubsequenceLonger(c, b1, b[|b| - 1]);
        assert b1 + [b[|b| - 1]] == b;
      } else {
        SubsequenceDrop(a1, b1, k);
        assert c[..|c| - 1] == a1[..k] + a1[k + 1..];
      }
    } else {
      SubsequenceDrop(a, b1, k);
      SubsequenceLonger(c, b1, b[|b| - 1]);
      assert b1 + [b[|b| - 1]] == b;
    }
  }

  lemma SubsequenceLonger<T>(a: seq<T>, b: seq<T>, x: T)
    requires Subsequence(a, b)
    ensures Subsequence(a, b + [x])
  {
    assert (b + [x])[..|b|] == b;
  }

  /** The promises of the queue policy. */
  predicate Kept(s: State, capacity: nat) {
    var out := Responses(s.delivered) + Responses(s.q);
    && |s.q| <= capacity
    && |Statuses(s.q)| <= 1 && (Statuses(s.q) != [] ==> Statuses(s.q) == s.newest)
    && Subsequence(out, s.offered)
    && |out| + s.lost == |s.offered|
  }

  lemma {:induction false} Lengths(q: seq<Msg>)
    ensures |Responses(q)| + |Statuses(q)| == |q|
  {
    if q != [] { Lengths(q[1..]); }
  }

  /** What a queued response adds to the history, with and without giving up the oldest. */
  lemma {:induction false} AppendKeepsOrder(sent: seq<Msg>, queued: seq<Msg>, offered: seq<Msg>, msg: Msg, drop: bool)
    requires Subsequence(sent + queued, offered) && (drop ==> queued != [])
    ensures Subsequence(sent + ((if drop then queued[1..] else queued) + [msg]), offered + [msg])
  {
    hide Subsequence;
    var out := sent + queued;
    if drop {
      SubsequenceDrop(out, offered, |sent|);
      assert out[..|sent|] + out[|sent| + 1..] == sent + queued[1..];
      SubsequenceAppend(sent + queued[1..], offered, msg);
      assert sent + (queued[1..] + [msg]) == sent + queued[1..] + [msg];
    } else {
      SubsequenceAppend(out, offered, msg);
      assert sent + (queued + [msg]) == out + [msg];
    }
  }

  lemma {:induction false} PutResponseKeeps(s: State, capacity: nat, msg: Msg)
    requires capacity >= 1 && Kept(s, capacity) && !msg.isStatus
    ensures Kept(Step(s, capacity, Put(msg)), capacity)
  {
    var r := Enqueue(s.q, capacity, msg);
    Lengths(s.q);
    Lengths(r);
    EnqueuedResponse(s.q, capacity, msg);
    hide Enqueue, Subsequence, Responses, Statuses;
    var drop := |s.q| >= capacity && Statuses(s.q) == [] && s.q != [];
    AppendKeepsOrder(Responses(s.delivered), Responses(s.q), s.offered, msg, drop);
  }

  lemma {:induction false} PutStatusKeeps(s: State, capacity: nat, msg: Msg)
    requires capacity >= 1 && Kept(s, capacity) && msg.isStatus
    ensures Kept(Step(s, capacity, Put(msg)), capacity)
  {
    Lengths(s.q);
    Lengths(Enqueue(s.q, capacity, msg));
    EnqueuedStatus(s.q, capacity, msg);
  }

  lemma {:induction false} ResponsesSplit(q: seq<Msg>, n: nat)
    requires n <= |q|
    ensures Responses(q) == Responses(q[..n]) + Responses(q[n..]) && Statuses(q) == Statuses(q[..n]) + Statuses(q[n..])
  {
    ResponsesConcat(q[..n], q[n..]);
    assert q[..n] + q[n..] == q;
  }

  lemma {:induction false} DrainKeeps(s: State, capacity: nat, accepts: nat)
    requires Kept(s, capacity)
    ensures Kept(Step(s, capacity, Drain(accepts)), capacity)
  {
    hide Responses, Statuses, Subsequence;
    var n := Smaller(accepts, |s.q|);
    ResponsesConcat(s.delivered, s.q[..n]);
    ResponsesSplit(s.q, n);
    var sent, front, back := Responses(s.delivered), Responses(s.q[..n]), Responses(s.q[n..]);
    assert sent + front + back == sent + (front + back);
  }

  lemma {:induction false} StepKeeps(s: State, capacity: nat, a: Act)
    requires capacity >= 1 && Kept(s, capacity)
    ensures Kept(Step(s, capacity, a), capacity)
  {
    hide Kept;
    match a
    case Put(msg) =>
      if msg.isStatus {
        PutStatusKeeps(s, capacity, msg);
      } else {
        PutResponseKeeps(s, capacity, msg);
      }
    case Drain(accepts) => DrainKeeps(s, capacity, accepts);
  }

  /** Over any interleaving of enqueues and drains: the queue stays within its capacity, at
      most one status is queued and it is the newest one, and the responses delivered or
      still queued are those offered, in order, minus the ones counted as given up. */
  lemma {:induction false} QueuePolicyHolds(s: State, capacity: nat, acts: seq<Act>)
    requires capacity >= 1 && Kept(s, capacity)
    ensures Kept(Run(s, capacity, acts), capacity)
    decreases |acts|
  {
    if acts != [] {
      StepKeeps(s, capacity, acts[0]);
      QueuePolicyHolds(Step(s, capacity, acts[0]), capacity, acts[1..]);
    }
  }

  lemma EmptyQueueKept(capacity: nat)
    ensures Kept(State([], [], [], [], 0), capacity)
  {
  }

  /** The same from the empty queue a client starts with. */
  lemma {:induction false} QueuePolicyFromEmpty(capacity: nat, acts: seq<Act>)
    requires capacity >= 1
    ensures Kept(Run(State([], [], [], [], 0), capacity, acts), capacity)
  {
    EmptyQueueKept(capacity);
    QueuePolicyHolds(State([], [], [], [], 0), capacity, acts);
  }
}
