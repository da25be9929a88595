/** Delivery routing: per-agent mailboxes in front of the overflow queue, with the accounting of the
    metrics (crates/cocli-agent/src/router.rs). */
module Router {
  import opened Prelude
  import opened DeliveryQueue

  datatype Command = Deliver(delivery: Delivery) | OtherCommand

  /** A bounded channel; closed once its receiver is gone. */
  datatype Mailbox = Mailbox(commands: seq<Command>, closed: bool) {
    predicate Accepts() { !closed && |commands| < MAX_PENDING_PER_AGENT }
    function With(c: Command): Mailbox { this.(commands := commands + [c]) }
  }

  datatype Counters = Counters(buffered: nat, updated: nat, rejected: nat, flushSent: nat, rebuffered: nat, depth: nat)

  /** What happened to one agent: deliveries put into a mailbox, deliveries accepted in arrival order
      (a retry in the place of the delivery it replaces), and commands its actor took since the last flush. */
  datatype History = History(sent: seq<Delivery>, accepted: seq<Delivery>, received: nat)

  datatype State = State(
    agents: map<string, Mailbox>,
    queues: Queues,
    counters: Counters,
    history: map<string, History>,
    forgotten: nat)

  const INITIAL: State := State(map[], map[], Counters(0, 0, 0, 0, 0, 0), map[], 0)

  function HistoryOf(s: State, agent: string): History {
    if agent in s.history then s.history[agent] else History([], [], 0)
  }

  // ---- The handlers -------------------------------------------------------------------------------

  /** How many waiting deliveries a mailbox takes. */
  function Room(mb: Mailbox, waiting: nat): (n: nat)
    ensures n <= waiting
  {
    if !mb.Accepts() then 0
    else if waiting <= MAX_PENDING_PER_AGENT - |mb.commands| then waiting
    else MAX_PENDING_PER_AGENT - |mb.commands|
  }

  function Wrap(ds: seq<Delivery>): (r: seq<Command>)
    ensures |r| == |ds|
    ensures forall i :: 0 <= i < |ds| ==> r[i] == Deliver(ds[i])
  {
    seq(|ds|, i requires 0 <= i < |ds| => Deliver(ds[i]))
  }

  function Filled(mb: Mailbox, ds: seq<Delivery>): Mailbox {
    mb.(commands := mb.commands + Wrap(ds))
  }

  /** `flush_delivery_queue_for_agent` for a registered agent. */
  ghost function Flush(s: State, agent: string): State
    requires agent in s.agents
  {
    var pending := Pending(s.queues, agent);
    var h := HistoryOf(s, agent);
    if pending == [] then
      s.(queues := s.queues - {agent}, history := s.history[agent := h.(received := 0)])
    else
      var mb := s.agents[agent];
      var n := Room(mb, |pending|);
      var rest := pending[n..];
      var queues := if rest == [] then s.queues - {agent} else s.queues[agent := rest];
      s.(agents := if mb.closed then s.agents - {agent} else s.agents[agent := Filled(mb, pending[..n])],
         queues := queues,
         counters := s.counters.(
           flushSent := s.counters.flushSent + n,
           rebuffered := s.counters.rebuffered + |rest|,
           depth := Total(queues)),
         history := s.history[agent := h.(sent := h.sent + pending[..n], received := 0)])
  }

  /** `buffer_delivery` */
  ghost function Buffer(s: State, agent: string, m: Delivery): State {
    var pending := Pending(s.queues, agent);
    var queues := s.queues[agent := Enqueued(pending, m)];
    var h := HistoryOf(s, agent);
    var outcome := EnqueueOutcome(pending, m);
    var accepted := match outcome
      case Queued => h.accepted + [m]
      case RejectedFull => h.accepted
      case Updated =>
        var at := |h.sent| + RetryIndex(pending, m).value;
        if at < |h.accepted| then h.accepted[at := m] else h.accepted;
    s.(queues := queues,
       counters := s.counters.(
         buffered := s.counters.buffered + if outcome.Queued? then 1 else 0,
         updated := s.counters.updated + if outcome.Updated? then 1 else 0,
         rejected := s.counters.rejected + if outcome.RejectedFull? then 1 else 0,
         depth := Total(queues)),
       history := s.history[agent := h.(accepted := accepted)])
  }

  /** `handle_deliver` after its flush; `mb` is the mailbox as the sender sees it. */
  ghost function SendOrBuffer(s: State, m: Delivery, mb: Mailbox): State {
    var agent := m.agent;
    if mb.Accepts() then
      var h := HistoryOf(s, agent);
      s.(agents := s.agents[agent := mb.With(Deliver(m))],
         history := s.history[agent := h.(sent := h.sent + [m], accepted := h.accepted + [m])])
    else
      var b := Buffer(s, agent, m);
      if mb.closed then b.(agents := b.agents - {agent}) else b
  }

  /** The sender keeps working on a mailbox the flush has just found closed. */
  function Seen(s: State, agent: string, before: Mailbox): Mailbox {
    if agent in s.agents then s.agents[agent] else before
  }

  /** `handle_deliver` */
  ghost function Delivered(s: State, m: Delivery): State {
    if m.agent in s.agents then
      var flushed := Flush(s, m.agent);
      SendOrBuffer(flushed, m, Seen(flushed, m.agent, s.agents[m.agent]))
    else Buffer(s, m.agent, m)
  }

  /** The registration part of `spawn_agent`. */
  ghost function Spawn(s: State, agent: string): State {
    if agent in s.agents then s
    else Flush(s.(agents := s.agents[agent := Mailbox([], false)]), agent)
  }

  /** The `Stopped` arm of `handle_state_change`. */
  ghost function Stopped(s: State, agent: string): State {
    var queues := s.queues - {agent};
    var h := HistoryOf(s, agent);
    s.(agents := s.agents - {agent},
       queues := queues,
       counters := s.counters.(depth := Total(queues)),
       history := s.history[agent := h.(accepted := h.sent)],
       forgotten := s.forgotten + |Pending(s.queues, agent)|)
  }

  /** The actor takes one command. */
  function Receive(s: State, agent: string): State {
    if agent in s.agents && s.agents[agent].commands != [] then
      var mb, h := s.agents[agent], HistoryOf(s, agent);
      s.(agents := s.agents[agent := mb.(commands := mb.commands[1..])],
         history := s.history[agent := h.(received := h.received + 1)])
    else s
  }

  /** The actor goes away. */
  function Close(s: State, agent: string): State {
    if agent in s.agents then s.(agents := s.agents[agent := s.agents[agent].(closed := true)]) else s
  }

  /** `handle_stop` and `handle_turn_cancel` wait for room and then send. */
  function SendOther(s: State, agent: string): State {
    if agent in s.agents && s.agents[agent].Accepts()
    then s.(agents := s.agents[agent := s.agents[agent].With(OtherCommand)])
    else s
  }

  datatype Event =
    | DeliverEvent(m: Delivery)
    | SpawnEvent(agent: string)
    | StoppedEvent(agent: string)
    | ReceiveEvent(agent: string)
    | CloseEvent(agent: string)
    | OtherEvent(agent: string)

  ghost function Step(s: State, e: Event): State {
    match e
    case DeliverEvent(m) => Delivered(s, m)
    case SpawnEvent(agent) => Spawn(s, agent)
    case StoppedEvent(agent) => Stopped(s, agent)
    case ReceiveEvent(agent) => Receive(s, agent)
    case CloseEvent(agent) => Close(s, agent)
    case OtherEvent(agent) => SendOther(s, agent)
  }

  ghost function Run(events: seq<Event>): State {
    if events == [] then INITIAL else Step(Run(events[..|events| - 1]), events[|events| - 1])
  }

  // ---- What every run keeps -------------------------------------------------------------------------

  function Deliveries(commands: seq<Command>): seq<Delivery> {
    if commands == [] then []
    else
      var last := commands[|commands| - 1];
      Deliveries(commands[..|commands| - 1]) + (if last.Deliver? then [last.delivery] else [])
  }

  /** Everything that concerns one agent. */
  datatype View = View(mailbox: Option<Mailbox>, pending: seq<Delivery>, history: History)

  function ViewOf(s: State, agent: string): View {
    View(if agent in s.agents then Some(s.agents[agent]) else None,
         Pending(s.queues, agent), HistoryOf(s, agent))
  }

  ghost predicate IsSuffix(xs: seq<Delivery>, ys: seq<Delivery>) {
    |xs| <= |ys| && ys[|ys| - |xs|..] == xs
  }

  /** First in, first out: what was put into mailboxes, followed by what still waits, is what was
      accepted, in arrival order. The mailbox holds the last part of what was sent. A delivery waits
      behind a mailbox with room only when the actor has made that room since the last flush. */
  ghost predicate AgentInv(v: View) {
    InOrder(v) && (v.pending != [] ==> NoRoom(v))
  }

  ghost predicate InOrder(v: View) {
    && Bounded(v.pending)
    && v.history.accepted == v.history.sent + v.pending
    && (v.mailbox.Some? ==>
          && |v.mailbox.value.commands| <= MAX_PENDING_PER_AGENT
          && IsSuffix(Deliveries(v.mailbox.value.commands), v.history.sent))
  }

  predicate NoRoom(v: View) {
    v.mailbox.Some? ==>
      var mb := v.mailbox.value;
      mb.closed || |mb.commands| + v.history.received >= MAX_PENDING_PER_AGENT
  }

  /** The gauge is the true total, and every delivery ever buffered waits, was flushed or was forgotten. */
  ghost predicate Balanced(s: State) {
    && s.counters.depth == Total(s.queues)
    && s.counters.buffered == s.counters.depth + s.counters.flushSent + s.forgotten
  }

  ghost predicate Inv(s: State) {
    (forall agent :: AgentInv(ViewOf(s, agent))) && Balanced(s)
  }

  ghost predicate OnlyAgent(s: State, s': State, agent: string) {
    forall other :: other != agent ==> ViewOf(s', other) == ViewOf(s, other)
  }

  lemma InvFrom(s: State, s': State, agent: string)
    requires Inv(s) && OnlyAgent(s, s', agent) && AgentInv(ViewOf(s', agent)) && Balanced(s')
    ensures Inv(s')
  {
    forall other ensures AgentInv(ViewOf(s', other)) {
      if other != agent {
        assert ViewOf(s', other) == ViewOf(s, other);
      }
    }
  }

  lemma {:induction false} DeliveriesAppend(commands: seq<Command>, ds: seq<Delivery>)
    ensures Deliveries(commands + Wrap(ds)) == Deliveries(commands) + ds
  {
    var all := commands + Wrap(ds);
    if ds == [] {
      assert all == commands;
    } else {
      var n := |ds| - 1;
      DeliveriesAppend(commands, ds[..n]);
      assert all[..|all| - 1] == commands + Wrap(ds[..n]);
      assert all[|all| - 1] == Deliver(ds[n]);
      assert ds == ds[..n] + [ds[n]];
    }
  }

  lemma {:induction false} DeliveriesPop(commands: seq<Command>)
    requires commands != []
    ensures Deliveries(commands)
         == (if commands[0].Deliver? then [commands[0].delivery] else []) + Deliveries(commands[1..])
  {
    if |commands| > 1 {
      var n := |commands| - 1;
      DeliveriesPop(commands[..n]);
      assert commands[1..][..n - 1] == commands[..n][1..];
      assert commands[1..][n - 1] == commands[n];
    } else {
      assert commands[..0] == [] && commands[1..] == [];
    }
  }

  lemma SuffixExtends(xs: seq<Delivery>, ys: seq<Delivery>, more: seq<Delivery>)
    requires IsSuffix(xs, ys)
    ensures IsSuffix(xs + more, ys + more)
  {
    assert (ys + more)[|ys| - |xs|..] == ys[|ys| - |xs|..] + more;
  }

  lemma FilledSuffix(mb: Mailbox, ds: seq<Delivery>, sent: seq<Delivery>)
    requires IsSuffix(Deliveries(mb.commands), sent)
    ensures IsSuffix(Deliveries(Filled(mb, ds).commands), sent + ds)
  {
    DeliveriesAppend(mb.commands, ds);
    SuffixExtends(Deliveries(mb.commands), sent, ds);
  }

  lemma SuffixDrops(front: seq<Delivery>, rest: seq<Delivery>, ys: seq<Delivery>)
    requires IsSuffix(front + rest, ys)
    ensures IsSuffix(rest, ys)
  {
    var k := |ys| - |front + rest|;
    assert ys[k..][|front|..] == rest;
  }

  lemma BoundedSuffix(pending: seq<Delivery>, n: nat)
    requires Bounded(pending) && n <= |pending|
    ensures Bounded(pending[n..])
  {
  }

  /** What a flush does to its agent. */
  function FlushedView(v: View): View
    requires v.mailbox.Some?
  {
    var h := v.history.(received := 0);
    if v.pending == [] then v.(history := h)
    else
      var mb := v.mailbox.value;
      var n := Room(mb, |v.pending|);
      View(if mb.closed then None else Some(Filled(mb, v.pending[..n])),
           v.pending[n..], h.(sent := h.sent + v.pending[..n]))
  }

  lemma FlushSeen(s: State, agent: string)
    requires agent in s.agents
    ensures OnlyAgent(s, Flush(s, agent), agent)
    ensures ViewOf(Flush(s, agent), agent) == FlushedView(ViewOf(s, agent))
  {
  }

  /** A flush sends in order and stops only at a full or closed mailbox. */
  lemma FlushInOrder(v: View)
    requires v.mailbox.Some? && InOrder(v)
    ensures AgentInv(FlushedView(v)) && FlushedView(v).history.received == 0
  {
    var pending, mb, h := v.pending, v.mailbox.value, v.history;
    if pending != [] {
      var n := Room(mb, |pending|);
      FilledSuffix(mb, pending[..n], h.sent);
      BoundedSuffix(pending, n);
      assert h.sent + pending[..n] + pending[n..] == h.sent + pending;
      RoomFills(mb, pending, n);
    }
  }

  /** Something stays behind only when the mailbox is closed or has become full. */
  lemma RoomFills(mb: Mailbox, pending: seq<Delivery>, n: nat)
    requires |mb.commands| <= MAX_PENDING_PER_AGENT && n == Room(mb, |pending|)
    ensures |Filled(mb, pending[..n]).commands| <= MAX_PENDING_PER_AGENT
    ensures pending[n..] != [] && !mb.closed ==> |Filled(mb, pending[..n]).commands| == MAX_PENDING_PER_AGENT
  {
  }

  lemma FlushAgent(s: State, agent: string)
    requires agent in s.agents && InOrder(ViewOf(s, agent))
    ensures
      var s' := Flush(s, agent);
      && OnlyAgent(s, s', agent)
      && AgentInv(ViewOf(s', agent))
      && HistoryOf(s', agent).received == 0
  {
    FlushSeen(s, agent);
    FlushInOrder(ViewOf(s, agent));
  }

  lemma FlushBalanced(s: State, agent: string)
    requires agent in s.agents && Balanced(s)
    ensures Balanced(Flush(s, agent))
  {
    var pending := Pending(s.queues, agent);
    TotalUpdates(s.queues, agent, pending[Room(s.agents[agent], |pending|)..]);
  }

  /** Buffering appends in arrival order, or replaces a retry in its place. */
  lemma BufferAgent(s: State, agent: string, m: Delivery)
    requires AgentInv(ViewOf(s, agent)) && NoRoom(ViewOf(s, agent))
    ensures
      var s' := Buffer(s, agent, m);
      OnlyAgent(s, s', agent) && AgentInv(ViewOf(s', agent)) && ViewOf(s', agent).mailbox == ViewOf(s, agent).mailbox
  {
    var pending, h := Pending(s.queues, agent), HistoryOf(s, agent);
    EnqueueKeepsBounds(pending, m);
    if EnqueueOutcome(pending, m).Updated? {
      var k := RetryIndex(pending, m).value;
      assert (h.sent + pending)[|h.sent| + k := m] == h.sent + pending[k := m];
    } else {
      assert h.sent + pending + [m] == h.sent + (pending + [m]);
    }
  }

  lemma BufferBalanced(s: State, agent: string, m: Delivery)
    requires Balanced(s)
    ensures Balanced(Buffer(s, agent, m))
  {
    TotalUpdates(s.queues, agent, Enqueued(Pending(s.queues, agent), m));
  }

  /** What sending one delivery does to a mailbox with room and nothing waiting. */
  lemma SentInOrder(v: View, m: Delivery)
    requires AgentInv(v) && v.mailbox.Some? && v.mailbox.value.Accepts() && v.pending == []
    ensures AgentInv(View(Some(v.mailbox.value.With(Deliver(m))), [],
                          v.history.(sent := v.history.sent + [m], accepted := v.history.accepted + [m])))
  {
    var mb := v.mailbox.value;
    FilledSuffix(mb, [m], v.history.sent);
    assert Filled(mb, [m]) == mb.With(Deliver(m));
    assert v.history.sent + [] == v.history.sent;
  }

  lemma SendSeen(s: State, m: Delivery, mb: Mailbox)
    requires mb.Accepts()
    ensures
      var s' := SendOrBuffer(s, m, mb);
      var h := HistoryOf(s, m.agent);
      && OnlyAgent(s, s', m.agent)
      && ViewOf(s', m.agent) == View(Some(mb.With(Deliver(m))), Pending(s.queues, m.agent),
                                     h.(sent := h.sent + [m], accepted := h.accepted + [m]))
      && (Balanced(s) ==> Balanced(s'))
  {
  }

  lemma SendAgent(s: State, m: Delivery, mb: Mailbox)
    requires AgentInv(ViewOf(s, m.agent)) && HistoryOf(s, m.agent).received == 0
    requires if m.agent in s.agents then mb == s.agents[m.agent] else mb.closed
    ensures
      var s' := SendOrBuffer(s, m, mb);
      OnlyAgent(s, s', m.agent) && AgentInv(ViewOf(s', m.agent))
    ensures Balanced(s) ==> Balanced(SendOrBuffer(s, m, mb))
  {
    if mb.Accepts() {
      SendSeen(s, m, mb);
      SentInOrder(ViewOf(s, m.agent), m);
    } else {
      BufferAgent(s, m.agent, m);
      if Balanced(s) {
        BufferBalanced(s, m.agent, m);
      }
      UnregisteredInv(ViewOf(Buffer(s, m.agent, m), m.agent));
    }
  }

  lemma UnregisteredInv(v: View)
    requires AgentInv(v)
    ensures AgentInv(v.(mailbox := None))
  {
  }

  lemma DeliverKeeps(s: State, m: Delivery)
    requires Inv(s)
    ensures Inv(Delivered(s, m))
  {
    var agent := m.agent;
    assert AgentInv(ViewOf(s, agent));
    if agent in s.agents {
      var f := Flush(s, agent);
      FlushAgent(s, agent);
      FlushBalanced(s, agent);
      SendAgent(f, m, Seen(f, agent, s.agents[agent]));
      var s' := Delivered(s, m);
      assert OnlyAgent(s, s', agent);
      InvFrom(s, s', agent);
    } else {
      BufferAgent(s, agent, m);
      BufferBalanced(s, agent, m);
      InvFrom(s, Buffer(s, agent, m), agent);
    }
  }

  /** A flush into a fresh mailbox always completes. */
  lemma SpawnKeeps(s: State, agent: string)
    requires Inv(s)
    ensures Inv(Spawn(s, agent))
    ensures agent !in s.agents ==> agent in Spawn(s, agent).agents && Pending(Spawn(s, agent).queues, agent) == []
  {
    if agent !in s.agents {
      var registered := s.(agents := s.agents[agent := Mailbox([], false)]);
      assert AgentInv(ViewOf(s, agent));
      assert ViewOf(registered, agent) == View(Some(Mailbox([], false)), Pending(s.queues, agent), HistoryOf(s, agent));
      FlushAgent(registered, agent);
      FlushBalanced(registered, agent);
      assert OnlyAgent(s, registered, agent);
      InvFrom(s, Flush(registered, agent), agent);
    }
  }

  lemma StoppedKeeps(s: State, agent: string)
    requires Inv(s)
    ensures Inv(Stopped(s, agent))
  {
    TotalUpdates(s.queues, agent, []);
    assert AgentInv(ViewOf(s, agent));
    assert HistoryOf(s, agent).sent + [] == HistoryOf(s, agent).sent;
    InvFrom(s, Stopped(s, agent), agent);
  }

  function ReceivedView(v: View): View
    requires v.mailbox.Some? && v.mailbox.value.commands != []
  {
    v.(mailbox := Some(v.mailbox.value.(commands := v.mailbox.value.commands[1..])),
       history := v.history.(received := v.history.received + 1))
  }

  lemma ReceiveInOrder(v: View)
    requires AgentInv(v) && v.mailbox.Some? && v.mailbox.value.commands != []
    ensures AgentInv(ReceivedView(v))
  {
    var commands := v.mailbox.value.commands;
    DeliveriesPop(commands);
    SuffixDrops(if commands[0].Deliver? then [commands[0].delivery] else [],
                Deliveries(commands[1..]), v.history.sent);
  }

  lemma ReceiveSeen(s: State, agent: string)
    requires agent in s.agents && s.agents[agent].commands != []
    ensures OnlyAgent(s, Receive(s, agent), agent)
    ensures ViewOf(Receive(s, agent), agent) == ReceivedView(ViewOf(s, agent))
  {
  }

  lemma ReceiveKeeps(s: State, agent: string)
    requires Inv(s)
    ensures Inv(Receive(s, agent))
  {
    if agent in s.agents && s.agents[agent].commands != [] {
      assert AgentInv(ViewOf(s, agent));
      ReceiveSeen(s, agent);
      ReceiveInOrder(ViewOf(s, agent));
      InvFrom(s, Receive(s, agent), agent);
    }
  }

  lemma CloseKeeps(s: State, agent: string)
    requires Inv(s)
    ensures Inv(Close(s, agent))
  {
    assert AgentInv(ViewOf(s, agent));
    InvFrom(s, Close(s, agent), agent);
  }

  lemma SendOtherInOrder(v: View)
    requires AgentInv(v) && v.mailbox.Some? && v.mailbox.value.Accepts()
    ensures AgentInv(v.(mailbox := Some(v.mailbox.value.With(OtherCommand))))
  {
    var mb := v.mailbox.value;
    assert mb.With(OtherCommand).commands[..|mb.commands|] == mb.commands;
  }

  lemma SendOtherKeeps(s: State, agent: string)
    requires Inv(s)
    ensures Inv(SendOther(s, agent))
  {
    if agent in s.agents && s.agents[agent].Accepts() {
      assert AgentInv(ViewOf(s, agent));
      SendOtherInOrder(ViewOf(s, agent));
      InvFrom(s, SendOther(s, agent), agent);
    }
  }

  /** Every run of handlers and actor steps, in any order, keeps order, bounds and balance. */
  lemma {:induction false} RunKeepsInv(events: seq<Event>)
    ensures Inv(Run(events))
  {
    if events == [] {
      assert Total(map[]) == 0;
      forall agent ensures AgentInv(ViewOf(INITIAL, agent)) {}
    } else {
      var s, e := Run(events[..|events| - 1]), events[|events| - 1];
      RunKeepsInv(events[..|events| - 1]);
      match e
      case DeliverEvent(m) => DeliverKeeps(s, m);
      case SpawnEvent(agent) => SpawnKeeps(s, agent);
      case StoppedEvent(agent) => StoppedKeeps(s, agent);
      case ReceiveEvent(agent) => ReceiveKeeps(s, agent);
      case CloseEvent(agent) => CloseKeeps(s, agent);
      case OtherEvent(agent) => SendOtherKeeps(s, agent);
    }
  }

  /** Right after a delivery was handled, another one waits only behind a full mailbox or none. */
  lemma DeliverLeavesNoRoom(s: State, m: Delivery)
    requires Inv(s)
    ensures
      var s' := Delivered(s, m);
      Pending(s'.queues, m.agent) != [] && m.agent in s'.agents ==>
        |s'.agents[m.agent].commands| == MAX_PENDING_PER_AGENT
  {
    DeliverKeeps(s, m);
    var s' := Delivered(s, m);
    assert AgentInv(ViewOf(s, m.agent)) && AgentInv(ViewOf(s', m.agent));
    if m.agent in s.agents {
      FlushAgent(s, m.agent);
    }
  }

  /** The mailbox is full and another delivery waits. */
  ghost predicate Overtakable(s: State, m: Delivery) {
    && Inv(s) && m.agent in s.agents
    && Pending(s.queues, m.agent) != [] && Pending(s.queues, m.agent)[0] != m
    && !s.agents[m.agent].closed && |s.agents[m.agent].commands| == MAX_PENDING_PER_AGENT
  }

  /** Atomicity is needed. If the actor takes a command between the flush and the send, the new
      delivery overtakes every one that waits, for any full mailbox with a waiting delivery. */
  lemma ReceiveBetweenBreaksOrder(s: State, m: Delivery)
    requires Overtakable(s, m)
    ensures
      var between := Receive(Flush(s, m.agent), m.agent);
      m.agent in between.agents &&
      var s' := SendOrBuffer(between, m, between.agents[m.agent]);
      var h := HistoryOf(s', m.agent);
      && Pending(s'.queues, m.agent) == Pending(s.queues, m.agent)
      && h.sent == HistoryOf(s, m.agent).sent + [m]
      && h.accepted != h.sent + Pending(s'.queues, m.agent)
  {
    var agent := m.agent;
    var pending, mb, h := Pending(s.queues, agent), s.agents[agent], HistoryOf(s, agent);
    assert AgentInv(ViewOf(s, agent));
    var f := Flush(s, agent);
    assert pending[0..] == pending && pending[..0] == [];
    assert f.agents[agent].commands == mb.commands;
    var between := Receive(f, agent);
    assert between.agents[agent].Accepts();
    var s' := SendOrBuffer(between, m, between.agents[agent]);
    assert HistoryOf(s', agent).accepted[|h.sent|] == pending[0];
    assert (h.sent + [m] + pending)[|h.sent|] == m;
  }

  // ---- Runs that show it ---------------------------------------------------------------------------------

  function Numbered(agent: string, content: string): Delivery {
    Delivery(agent, 0, 0, 0, content)
  }

  /** A spawn and `n` deliveries. */
  function Flood(agent: string, n: nat): seq<Event> {
    if n == 0 then [SpawnEvent(agent)] else Flood(agent, n - 1) + [DeliverEvent(Numbered(agent, ""))]
  }

  lemma RunStep(events: seq<Event>, e: Event)
    ensures Run(events + [e]) == Step(Run(events), e)
  {
    assert (events + [e])[..|events|] == events;
  }

  /** An open mailbox with `n` commands, and nothing waiting. */
  predicate Holding(s: State, agent: string, n: nat) {
    && agent in s.agents && !s.agents[agent].closed && |s.agents[agent].commands| == n
    && Pending(s.queues, agent) == []
  }

  lemma SpawnHolds(agent: string)
    ensures Holding(Spawn(INITIAL, agent), agent, 0)
  {
  }

  lemma DeliverHolds(s: State, m: Delivery, n: nat)
    requires Holding(s, m.agent, n) && n < MAX_PENDING_PER_AGENT
    ensures Holding(Delivered(s, m), m.agent, n + 1)
  {
    var f := Flush(s, m.agent);
    assert f.agents == s.agents && Holding(f, m.agent, n);
  }

  /** As long as there is room every delivery goes into the mailbox. */
  lemma {:induction false} FloodFills(agent: string, n: nat)
    requires n <= MAX_PENDING_PER_AGENT
    ensures Holding(Run(Flood(agent, n)), agent, n)
  {
    if n == 0 {
      RunStep([], SpawnEvent(agent));
      assert [] + [SpawnEvent(agent)] == Flood(agent, 0);
      SpawnHolds(agent);
    } else {
      FloodFills(agent, n - 1);
      RunStep(Flood(agent, n - 1), DeliverEvent(Numbered(agent, "")));
      DeliverHolds(Run(Flood(agent, n - 1)), Numbered(agent, ""), n - 1);
    }
  }

  /** One more waits behind the full mailbox. */
  lemma FloodOverflows(agent: string, n: nat)
    requires n == MAX_PENDING_PER_AGENT
    ensures
      var s := Run(Flood(agent, n + 1));
      && agent in s.agents && !s.agents[agent].closed && |s.agents[agent].commands| == n
      && Pending(s.queues, agent) == [Numbered(agent, "")]
  {
    FloodFills(agent, n);
    RunStep(Flood(agent, n), DeliverEvent(Numbered(agent, "")));
    var q: seq<Delivery> := [];
    assert RetryIndex(q, Numbered(agent, "")).None?;
  }

  /** A run in which a delivery waits behind a mailbox with room: the actor has just taken a command. */
  lemma WaitsBehindRoom(agent: string, n: nat)
    requires n == MAX_PENDING_PER_AGENT
    ensures
      var s := Run(Flood(agent, n + 1) + [ReceiveEvent(agent)]);
      agent in s.agents && s.agents[agent].Accepts() && Pending(s.queues, agent) != []
  {
    FloodOverflows(agent, n);
    RunStep(Flood(agent, n + 1), ReceiveEvent(agent));
  }

  /** A run after which the next delivery can overtake. */
  lemma OvertakingRun(agent: string, n: nat)
    requires n == MAX_PENDING_PER_AGENT
    ensures Overtakable(Run(Flood(agent, n + 1)), Numbered(agent, "next"))
  {
    FloodOverflows(agent, n);
    RunKeepsInv(Flood(agent, n + 1));
    assert Numbered(agent, "") != Numbered(agent, "next");
  }

  // ---- The router object ------------------------------------------------------------------------------

  lemma RoomStep(mb: Mailbox, pending: seq<Delivery>, i: nat)
    requires i < |pending| && i <= Room(mb, |pending|)
    ensures Filled(mb, pending[..i]).Accepts() <==> i < Room(mb, |pending|)
    ensures Filled(mb, pending[..i]).With(Deliver(pending[i])) == Filled(mb, pending[..i + 1])
  {
    assert Wrap(pending[..i + 1]) == Wrap(pending[..i]) + [Deliver(pending[i])];
  }

  /** Draining, filling the mailbox and putting back the rest are the flush. */
  lemma FlushedParts(s: State, agent: string, agents: map<string, Mailbox>, queues: Queues)
    requires agent in s.agents && Pending(s.queues, agent) != []
    requires
      var mb, pending := s.agents[agent], Pending(s.queues, agent);
      var n := Room(mb, |pending|);
      var filled := s.agents[agent := Filled(mb, pending[..n])];
      && agents == (if pending[n..] != [] && mb.closed then filled - {agent} else filled)
      && queues == if pending[n..] == [] then s.queues - {agent} else (s.queues - {agent})[agent := pending[n..]]
    ensures agents == Flush(s, agent).agents && queues == Flush(s, agent).queues
  {
  }

  class AgentRouter {
    var agents: map<string, Mailbox>
    const queue: Queue
    var counters: Counters
    ghost var history: map<string, History>
    ghost var forgotten: nat

    ghost function AsState(): State
      reads this, queue
    {
      State(agents, queue.perAgent, counters, history, forgotten)
    }

    constructor ()
      ensures AsState() == INITIAL && fresh(queue)
    {
      agents, counters, history, forgotten := map[], Counters(0, 0, 0, 0, 0, 0), map[], 0;
      queue := new Queue();
    }

    /** The sending loop of the flush: stops at the first delivery the mailbox refuses. */
    method SendAll(agent: string, buffered: seq<Delivery>) returns (sent: nat)
      requires agent in agents
      modifies this`agents
      ensures sent == Room(old(agents[agent]), |buffered|)
      ensures agents == old(agents)[agent := Filled(old(agents[agent]), buffered[..sent])]
    {
      ghost var mb := agents[agent];
      sent := 0;
      assert Filled(mb, buffered[..0]) == mb;
      while sent < |buffered|
        invariant sent <= Room(mb, |buffered|)
        invariant agents == old(agents)[agent := Filled(mb, buffered[..sent])]
      {
        RoomStep(mb, buffered, sent);
        if !agents[agent].Accepts() {
          break;
        }
        agents := agents[agent := agents[agent].With(Deliver(buffered[sent]))];
        sent := sent + 1;
      }
    }

    /** Puts what the mailbox refused back at the head; nothing is cut off. */
    method Rebuffer(agent: string, remaining: seq<Delivery>)
      requires agent in agents && agent !in queue.perAgent && |remaining| <= MAX_PENDING_PER_AGENT
      modifies this`agents, this`counters, queue
      ensures queue.perAgent == if remaining == [] then old(queue.perAgent) else old(queue.perAgent)[agent := remaining]
      ensures counters == old(counters).(rebuffered := old(counters).rebuffered + |remaining|)
      ensures agents == if remaining != [] && old(agents[agent]).closed then old(agents) - {agent} else old(agents)
    {
      if remaining != [] {
        queue.Prepend(agent, remaining);
        assert remaining + [] == remaining;
        counters := counters.(rebuffered := counters.rebuffered + |remaining|);
        if agents[agent].closed {
          agents := agents - {agent};
        }
      }
    }

    method FlushDeliveryQueue(agent: string)
      requires agent in agents && |Pending(queue.perAgent, agent)| <= MAX_PENDING_PER_AGENT
      modifies this, queue
      ensures AsState() == Flush(old(AsState()), agent)
    {
      ghost var before := AsState();
      ghost var flushed := Flush(before, agent);
      history := flushed.history;
      var buffered := queue.Drain(agent);
      if buffered == [] {
        return;
      }
      var sent := SendAll(agent, buffered);
      Rebuffer(agent, buffered[sent..]);
      var depth := queue.TotalLen();
      counters := counters.(flushSent := counters.flushSent + sent, depth := depth);
      FlushedParts(before, agent, agents, queue.perAgent);
    }

    method BufferDelivery(agent: string, m: Delivery)
      modifies this`counters, this`history, queue
      ensures AsState() == Buffer(old(AsState()), agent, m)
    {
      ghost var before := AsState();
      var r := queue.Enqueue(agent, m);
      match r {
        case Queued => counters := counters.(buffered := counters.buffered + 1);
        case Updated => counters := counters.(updated := counters.updated + 1);
        case RejectedFull => counters := counters.(rejected := counters.rejected + 1);
      }
      var depth := queue.TotalLen();
      counters := counters.(depth := depth);
      history := Buffer(before, agent, m).history;
    }

    method HandleDeliver(m: Delivery)
      requires |Pending(queue.perAgent, m.agent)| <= MAX_PENDING_PER_AGENT
      modifies this, queue
      ensures AsState() == Delivered(old(AsState()), m)
    {
      var agent := m.agent;
      if agent in agents {
        var tx := agents[agent];
        FlushDeliveryQueue(agent);
        ghost var flushed := AsState();
        tx := if agent in agents then agents[agent] else tx;
        if tx.Accepts() {
          agents := agents[agent := tx.With(Deliver(m))];
          history := SendOrBuffer(flushed, m, tx).history;
        } else {
          BufferDelivery(agent, m);
          if tx.closed {
            agents := agents - {agent};
          }
        }
      } else {
        BufferDelivery(agent, m);
      }
    }

    method SpawnAgent(agent: string)
      requires |Pending(queue.perAgent, agent)| <= MAX_PENDING_PER_AGENT
      modifies this, queue
      ensures AsState() == Spawn(old(AsState()), agent)
    {
      if agent in agents {
        return;
      }
      agents := agents[agent := Mailbox([], false)];
      FlushDeliveryQueue(agent);
    }

    method HandleStopped(agent: string)
      modifies this, queue
      ensures AsState() == Stopped(old(AsState()), agent)
    {
      history := Stopped(AsState(), agent).history;
      forgotten := forgotten + |Pending(queue.perAgent, agent)|;
      agents := agents - {agent};
      queue.Forget(agent);
      var depth := queue.TotalLen();
      counters := counters.(depth := depth);
    }
  }
}
