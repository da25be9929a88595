/** The bounded per-agent overflow queue (crates/cocli-agent/src/queue.rs). */
module DeliveryQueue {
  import opened Prelude

  const MAX_PENDING_PER_AGENT: nat := 64

  datatype Delivery = Delivery(agent: string, seqNo: int, channel: nat, attempt: int, content: string)

  datatype EnqueueResult = Queued | Updated | RejectedFull

  type Queues = map<string, seq<Delivery>>

  function Pending(q: Queues, agent: string): seq<Delivery> {
    if agent in q then q[agent] else []
  }

  // ---- One agent's queue ------------------------------------------------------------------------

  /** A retry carries the channel-local sequence number of a delivery already waiting. */
  predicate IsRetryOf(m: Delivery, pending: Delivery) {
    m.seqNo > 0 && pending.seqNo == m.seqNo && pending.channel == m.channel
  }

  function RetryIndex(q: seq<Delivery>, m: Delivery): (r: Option<nat>)
    ensures r.Some? ==> r.value < |q| && IsRetryOf(m, q[r.value])
    ensures r.None? ==> forall i :: 0 <= i < |q| ==> !IsRetryOf(m, q[i])
  {
    if q == [] then None
    else if IsRetryOf(m, q[0]) then Some(0)
    else
      match RetryIndex(q[1..], m)
      case None => None
      case Some(i) => Some(i + 1)
  }

  function EnqueueOutcome(q: seq<Delivery>, m: Delivery): EnqueueResult {
    if RetryIndex(q, m).Some? then Updated
    else if |q| >= MAX_PENDING_PER_AGENT then RejectedFull
    else Queued
  }

  function Enqueued(q: seq<Delivery>, m: Delivery): seq<Delivery> {
    match EnqueueOutcome(q, m)
    case Updated => q[RetryIndex(q, m).value := m]
    case RejectedFull => q
    case Queued => q + [m]
  }

  /** At most one waiting delivery per positive sequence number and channel. */
  ghost predicate NoDuplicates(q: seq<Delivery>) {
    forall i, j :: 0 <= i < j < |q| ==> !IsRetryOf(q[i], q[j])
  }

  ghost predicate Bounded(q: seq<Delivery>) {
    |q| <= MAX_PENDING_PER_AGENT && NoDuplicates(q)
  }

  lemma EnqueueKeepsBounds(q: seq<Delivery>, m: Delivery)
    requires Bounded(q)
    ensures Bounded(Enqueued(q, m))
  {
    var r := Enqueued(q, m);
    forall i, j | 0 <= i < j < |r| ensures !IsRetryOf(r[i], r[j]) {
      if RetryIndex(q, m).Some? {
        var k := RetryIndex(q, m).value;
        assert !IsRetryOf(q[i], q[j]);
        assert r[i] == if i == k then m else q[i];
        assert r[j] == if j == k then m else q[j];
      } else if j < |q| {
        assert r[i] == q[i] && r[j] == q[j];
      } else {
        assert r[i] == q[i] && !IsRetryOf(m, q[i]);
      }
    }
  }

  // ---- The total over all agents --------------------------------------------------------------------

  ghost function Total(q: Queues): nat {
    if q == map[] then 0
    else
      var agent :| agent in q;
      |q[agent]| + Total(q - {agent})
  }

  lemma {:induction false} TotalRemoves(q: Queues, agent: string)
    requires agent in q
    ensures Total(q) == |q[agent]| + Total(q - {agent})
    decreases |q|
  {
    var first :| first in q && Total(q) == |q[first]| + Total(q - {first});
    if first != agent {
      TotalRemoves(q - {first}, agent);
      TotalRemoves(q - {agent}, first);
      assert q - {first} - {agent} == q - {agent} - {first};
    }
  }

  lemma TotalUpdates(q: Queues, agent: string, pending: seq<Delivery>)
    ensures Total(q[agent := pending]) == Total(q) - |Pending(q, agent)| + |pending|
    ensures Total(q - {agent}) == Total(q) - |Pending(q, agent)|
  {
    var q' := q[agent := pending];
    TotalRemoves(q', agent);
    assert q' - {agent} == q - {agent};
    if agent in q {
      TotalRemoves(q, agent);
    } else {
      assert q - {agent} == q;
    }
  }

  // ---- The queue object -------------------------------------------------------------------------------

  method FindRetry(queue: seq<Delivery>, m: Delivery) returns (r: Option<nat>)
    ensures r == RetryIndex(queue, m)
  {
    if m.seqNo <= 0 {
      return None;
    }
    for i := 0 to |queue|
      invariant RetryIndex(queue, m) == Shifted(i, RetryIndex(queue[i..], m))
    {
      assert queue[i..][0] == queue[i] && queue[i..][1..] == queue[i + 1..];
      if queue[i].seqNo == m.seqNo && queue[i].channel == m.channel {
        return Some(i);
      }
    }
    return None;
  }

  class Queue {
    var perAgent: Queues

    constructor ()
      ensures perAgent == map[]
    {
      perAgent := map[];
    }

    method Enqueue(agent: string, m: Delivery) returns (r: EnqueueResult)
      modifies this
      ensures r == EnqueueOutcome(old(Pending(perAgent, agent)), m)
      ensures perAgent == old(perAgent)[agent := Enqueued(old(Pending(perAgent, agent)), m)]
    {
      var queue := Pending(perAgent, agent);
      var retried := FindRetry(queue, m);
      if retried.Some? {
        perAgent := perAgent[agent := queue[retried.value := m]];
        return Updated;
      }
      perAgent := perAgent[agent := queue];
      if |queue| >= MAX_PENDING_PER_AGENT {
        return RejectedFull;
      }
      perAgent := perAgent[agent := queue + [m]];
      return Queued;
    }

    method Drain(agent: string) returns (drained: seq<Delivery>)
      modifies this
      ensures drained == old(Pending(perAgent, agent))
      ensures perAgent == old(perAgent) - {agent}
    {
      drained := Pending(perAgent, agent);
      perAgent := perAgent - {agent};
    }

    /** Puts messages back at the head and cuts off what does not fit. */
    method Prepend(agent: string, messages: seq<Delivery>)
      modifies this
      ensures messages == [] ==> perAgent == old(perAgent)
      ensures messages != [] ==> perAgent == old(perAgent)[agent := Prepended(messages, old(Pending(perAgent, agent)))]
    {
      if messages == [] {
        return;
      }
      var queue := Pending(perAgent, agent);
      var rest := queue;
      var i := |messages|;
      while i > 0
        invariant 0 <= i <= |messages|
        invariant rest == messages[i..] + queue
      {
        i := i - 1;
        rest := [messages[i]] + rest;
      }
      assert messages[0..] == messages;
      perAgent := perAgent[agent := if |rest| > MAX_PENDING_PER_AGENT then rest[..MAX_PENDING_PER_AGENT] else rest];
    }

    method Forget(agent: string)
      modifies this
      ensures perAgent == old(perAgent) - {agent}
    {
      perAgent := perAgent - {agent};
    }

    method TotalLen() returns (total: nat)
      ensures total == Total(perAgent)
    {
      total := 0;
      var rest := perAgent;
      while rest != map[]
        invariant total + Total(rest) == Total(perAgent)
        decreases |rest|
      {
        var agent :| agent in rest;
        TotalRemoves(rest, agent);
        total := total + |rest[agent]|;
        rest := rest - {agent};
      }
    }
  }

  function Shifted(k: nat, at: Option<nat>): Option<nat> {
    if at.Some? then Some(k + at.value) else None
  }

  function Prepended(messages: seq<Delivery>, queue: seq<Delivery>): seq<Delivery> {
    var all := messages + queue;
    if |all| > MAX_PENDING_PER_AGENT then all[..MAX_PENDING_PER_AGENT] else all
  }
}
