/** The durable delivery worker: one batch of attempts, and the start-up gate
    (crates/cocli-api/src/lib.rs). */
module DeliveryWorker {
  import opened Prelude
  import opened Sorting

  // ---- A batch ------------------------------------------------------------------------------------

  datatype Delivery = Delivery(id: nat, attempts: int)

  /** A delivery for which an attempt was spawned, with its place in the reservation. */
  datatype Job = Job(index: nat, delivery: Delivery)

  datatype Outcome = Reply(content: string) | Retryable(error: string) | Indeterminate(error: string)

  datatype TaskResult = Finished(outcome: Outcome) | Panicked

  datatype Completion = Completion(job: Job, outcome: Outcome)

  datatype Config = Config(baseBackoff: nat, maxBackoff: nat, maxAttempts: int)

  datatype Write =
    | CompleteDelivery(id: nat, content: string)
    | DeferDelivery(id: nat, error: string, delay: nat, maxAttempts: int)

  const PANIC: string := "durable delivery runtime task failed"

  function OutcomeOf(r: TaskResult): Outcome {
    match r case Finished(outcome) => outcome case Panicked => Retryable(PANIC)
  }

  function Pow2(n: nat): nat {
    if n == 0 then 1 else 2 * Pow2(n - 1)
  }

  function Backoff(config: Config, attempts: int): (r: nat)
    ensures r <= config.maxBackoff
  {
    var exponent: nat := if attempts <= 1 then 0 else if attempts - 1 < 8 then attempts - 1 else 8;
    var delay := config.baseBackoff * Pow2(exponent);
    if delay < config.maxBackoff then delay else config.maxBackoff
  }

  /** The delay doubles with every attempt, up to the cap and for the first nine attempts. */
  lemma BackoffDoubles(config: Config, attempts: int)
    requires 1 <= attempts
    ensures Backoff(config, 1)
         == if config.baseBackoff < config.maxBackoff then config.baseBackoff else config.maxBackoff
    ensures
      var doubled := if attempts < 9 then 2 * Backoff(config, attempts) else Backoff(config, attempts);
      Backoff(config, attempts + 1) == if doubled < config.maxBackoff then doubled else config.maxBackoff
  {
    if attempts < 9 {
      var base, power := config.baseBackoff, Pow2(attempts - 1);
      assert Pow2(attempts) == 2 * power;
      assert base * (2 * power) == 2 * (base * power);
    }
  }

  /** What is written to the store for one attempt. */
  function WriteFor(c: Completion, config: Config): Write {
    var d := c.job.delivery;
    match c.outcome
    case Reply(content) => CompleteDelivery(d.id, content)
    case Retryable(error) => DeferDelivery(d.id, error, Backoff(config, d.attempts), config.maxAttempts)
    case Indeterminate(error) => DeferDelivery(d.id, error, 0, d.attempts)
  }

  predicate IndexLe(l: Completion, r: Completion) {
    l.job.index <= r.job.index
  }

  /** The jobs a reservation dispatches: those whose agent and message are still there. */
  function Dispatched(deliveries: seq<Delivery>, known: Delivery -> bool): (jobs: seq<Job>)
    ensures forall i :: 0 <= i < |jobs| ==>
      jobs[i].index < |deliveries| && deliveries[jobs[i].index] == jobs[i].delivery && known(jobs[i].delivery)
    ensures forall k :: 0 <= k < |deliveries| && known(deliveries[k]) ==> Job(k, deliveries[k]) in jobs
    ensures forall i, j :: 0 <= i < j < |jobs| ==> jobs[i].index < jobs[j].index
  {
    if deliveries == [] then []
    else
      var n := |deliveries| - 1;
      Dispatched(deliveries[..n], known) + (if known(deliveries[n]) then [Job(n, deliveries[n])] else [])
  }

  ghost predicate Increasing(jobs: seq<Job>) {
    forall i, j :: 0 <= i < j < |jobs| ==> jobs[i].index < jobs[j].index
  }

  /** The completion of the task spawned for the `k`-th job. */
  function CompletionOf(jobs: seq<Job>, results: seq<TaskResult>, k: nat): Completion
    requires k < |jobs| == |results|
  {
    Completion(jobs[k], OutcomeOf(results[k]))
  }

  ghost predicate InRange(order: seq<nat>, n: nat) {
    forall i :: 0 <= i < |order| ==> order[i] < n
  }

  /** The completions in the order in which the tasks end. */
  function InOrder(jobs: seq<Job>, results: seq<TaskResult>, order: seq<nat>): (r: seq<Completion>)
    requires |jobs| == |results| && InRange(order, |jobs|)
    ensures |r| == |order|
    ensures forall i :: 0 <= i < |order| ==> r[i] == CompletionOf(jobs, results, order[i])
  {
    seq(|order|, i requires 0 <= i < |order| => CompletionOf(jobs, results, order[i]))
  }

  function All(n: nat): (r: seq<nat>)
    ensures |r| == n && forall i :: 0 <= i < n ==> r[i] == i
  {
    seq(n, i => i)
  }

  /** Every spawned task ends exactly once. */
  ghost predicate IsOrder(order: seq<nat>, n: nat) {
    multiset(order) == multiset(All(n))
  }

  lemma OrderInRange(order: seq<nat>, n: nat)
    requires IsOrder(order, n)
    ensures |order| == n && InRange(order, n)
  {
    SameElements(order, All(n));
    forall i | 0 <= i < |order| ensures order[i] < n {
      assert order[i] in order;
    }
  }

  lemma InOrderConcat(jobs: seq<Job>, results: seq<TaskResult>, xs: seq<nat>, ys: seq<nat>)
    requires |jobs| == |results| && InRange(xs, |jobs|) && InRange(ys, |jobs|)
    ensures InRange(xs + ys, |jobs|)
    ensures InOrder(jobs, results, xs + ys) == InOrder(jobs, results, xs) + InOrder(jobs, results, ys)
  {
  }

  lemma CompletionsWithout(jobs: seq<Job>, results: seq<TaskResult>, order: seq<nat>, j: nat)
    requires |jobs| == |results| && InRange(order, |jobs|) && j < |order|
    ensures InRange(order[..j] + order[j + 1..], |jobs|)
    ensures multiset(InOrder(jobs, results, order))
         == multiset(InOrder(jobs, results, order[..j] + order[j + 1..]))
            + multiset{CompletionOf(jobs, results, order[j])}
  {
    var front, back := order[..j], order[j + 1..];
    var all := InOrder(jobs, results, order);
    RemoveAt(all, j);
    InOrderConcat(jobs, results, front, back);
    assert all[..j] == InOrder(jobs, results, front);
    assert all[j + 1..] == InOrder(jobs, results, back);
  }

  lemma {:induction false} PermutedCompletions(jobs: seq<Job>, results: seq<TaskResult>, xs: seq<nat>, ys: seq<nat>)
    requires |jobs| == |results| && InRange(xs, |jobs|) && InRange(ys, |jobs|)
    requires multiset(xs) == multiset(ys)
    ensures multiset(InOrder(jobs, results, xs)) == multiset(InOrder(jobs, results, ys))
    decreases |xs|
  {
    if xs == [] {
      SameElements(xs, ys);
    } else {
      var j := PickOut(xs, ys);
      CompletionsWithout(jobs, results, xs, 0);
      assert xs[..0] + xs[1..] == xs[1..];
      CompletionsWithout(jobs, results, ys, j);
      PermutedCompletions(jobs, results, xs[1..], ys[..j] + ys[j + 1..]);
    }
  }

  lemma IndexOrder()
    ensures TotalPreorder(IndexLe)
  {
  }

  lemma DispatchOrderSorted(jobs: seq<Job>, results: seq<TaskResult>)
    requires |jobs| == |results| && Increasing(jobs)
    ensures
      var dispatched := InOrder(jobs, results, All(|jobs|));
      SortedBy(dispatched, IndexLe) && Separates(dispatched, IndexLe)
  {
    var dispatched := InOrder(jobs, results, All(|jobs|));
    forall x, y | x in dispatched && y in dispatched && IndexLe(x, y) && IndexLe(y, x) ensures x == y {
      var i :| 0 <= i < |jobs| && dispatched[i] == x;
      var j :| 0 <= j < |jobs| && dispatched[j] == y;
      assert jobs[i].index == jobs[j].index;
    }
  }

  /** Whatever the completion order, sorting by index gives the completions in dispatch order. */
  lemma CompletionOrderIrrelevant(jobs: seq<Job>, results: seq<TaskResult>, order: seq<nat>)
    requires |jobs| == |results| && Increasing(jobs) && IsOrder(order, |jobs|)
    ensures InRange(order, |jobs|)
    ensures Sort(InOrder(jobs, results, order), IndexLe) == InOrder(jobs, results, All(|jobs|))
  {
    var dispatched := InOrder(jobs, results, All(|jobs|));
    OrderInRange(order, |jobs|);
    PermutedCompletions(jobs, results, order, All(|jobs|));
    IndexOrder();
    DispatchOrderSorted(jobs, results);
    SortIsCanonical(dispatched, InOrder(jobs, results, order), IndexLe);
    SortFixpoint(dispatched, IndexLe);
  }

  /** The join loop: tasks are taken out of the task map as they end, panics included. */
  method Collect(jobs: seq<Job>, results: seq<TaskResult>, order: seq<nat>) returns (completed: seq<Completion>)
    requires |jobs| == |results| && IsOrder(order, |jobs|)
    ensures InRange(order, |jobs|) && completed == InOrder(jobs, results, order)
  {
    OrderInRange(order, |jobs|);
    var tasks := map k | 0 <= k < |jobs| :: jobs[k];
    completed := [];
    for i := 0 to |order|
      invariant InRange(order[..i], |jobs|) && completed == InOrder(jobs, results, order[..i])
      invariant forall k :: k in tasks ==> 0 <= k < |jobs| && tasks[k] == jobs[k]
      invariant forall k :: i <= k < |order| ==> order[k] in tasks
    {
      var task := order[i];
      if task in tasks {
        completed := completed + [Completion(tasks[task], OutcomeOf(results[task]))];
        forall k | i < k < |order| ensures order[k] != task {
          OnlyOnce(order, |jobs|, i, k);
        }
        tasks := tasks - {task};
      }
      InOrderConcat(jobs, results, order[..i], [task]);
      assert order[..i + 1] == order[..i] + [task];
      assert InOrder(jobs, results, [task]) == [CompletionOf(jobs, results, task)];
    }
    assert order[..|order|] == order;
  }

  lemma OnlyOnce(order: seq<nat>, n: nat, i: nat, k: nat)
    requires IsOrder(order, n) && i < k < |order|
    ensures order[i] != order[k]
  {
    if order[i] == order[k] {
      assert order == order[..i] + [order[i]] + order[i + 1..k] + [order[k]] + order[k + 1..];
      assert multiset(order)[order[i]] >= 2;
      CountInAll(n, order[i]);
      assert false;
    }
  }

  lemma {:induction false} CountInAll(n: nat, x: nat)
    ensures multiset(All(n))[x] <= 1
    ensures x >= n ==> multiset(All(n))[x] == 0
    decreases n
  {
    if n > 0 {
      CountInAll(n - 1, x);
      assert All(n) == All(n - 1) + [n - 1];
    }
  }

  function Writes(cs: seq<Completion>, config: Config): (r: seq<Write>)
    ensures |r| == |cs|
    ensures forall i :: 0 <= i < |cs| ==> r[i] == WriteFor(cs[i], config)
  {
    seq(|cs|, i requires 0 <= i < |cs| => WriteFor(cs[i], config))
  }

  /** A store call, which may fail at any time. */
  method StoreCall() returns (ok: bool) {
    ok := *;
  }

  /** Writes the outcomes one by one and stops at the first store call that fails. */
  method Settle(completed: seq<Completion>, config: Config) returns (written: seq<Write>, ok: bool)
    ensures written <= Writes(completed, config)
    ensures ok ==> written == Writes(completed, config)
  {
    written := [];
    for i := 0 to |completed|
      invariant |written| == i
      invariant forall k :: 0 <= k < i ==> written[k] == WriteFor(completed[k], config)
    {
      var saved := StoreCall();
      if !saved {
        return written, false;
      }
      written := written + [WriteFor(completed[i], config)];
    }
    ok := true;
  }

  /** The spawning loop: a failed look-up ends the batch before anything is written. */
  method DispatchAll(deliveries: seq<Delivery>, known: Delivery -> bool) returns (jobs: Option<seq<Job>>)
    ensures jobs.Some? ==> jobs.value == Dispatched(deliveries, known)
  {
    var spawned: seq<Job> := [];
    for i := 0 to |deliveries|
      invariant spawned == Dispatched(deliveries[..i], known)
    {
      assert deliveries[..i + 1][..i] == deliveries[..i];
      var found := StoreCall();
      if !found {
        return None;
      }
      if known(deliveries[i]) {
        spawned := spawned + [Job(i, deliveries[i])];
      }
    }
    assert deliveries[..|deliveries|] == deliveries;
    return Some(spawned);
  }

  /** `process`: for every completion order, outcomes are written in reservation order, each at most
      once; what was written is a prefix of the batch, all of it unless a store call fails. */
  method ProcessBatch(deliveries: seq<Delivery>, known: Delivery -> bool, results: seq<TaskResult>,
                      order: seq<nat>, config: Config)
    returns (written: seq<Write>, ok: bool)
    requires |results| == |Dispatched(deliveries, known)| && IsOrder(order, |results|)
    ensures
      var jobs := Dispatched(deliveries, known);
      var all := Writes(InOrder(jobs, results, All(|jobs|)), config);
      written <= all && (ok ==> written == all)
  {
    var spawned := DispatchAll(deliveries, known);
    if spawned.None? {
      return [], false;
    }
    var jobs := spawned.value;
    var completed := Collect(jobs, results, order);
    CompletionOrderIrrelevant(jobs, results, order);
    written, ok := Settle(Sort(completed, IndexLe), config);
  }

  // ---- The start-up gate -------------------------------------------------------------------------------

  /** Where a waiter is in `wait_until_ready`; a registered one knows how often was notified before. */
  datatype Waiter = AtCheck | AtRegister | AtRecheck(seen: nat) | Awaiting(seen: nat) | Returned

  datatype Worker = Starting | ReadySet | Notified

  datatype Gate = Gate(ready: bool, notifications: nat, worker: Worker, waiters: seq<Waiter>)

  datatype GateEvent = WorkerStep | Arrive | WaiterStep(who: nat)

  const CLOSED_GATE: Gate := Gate(false, 0, Starting, [])

  /** One step of a waiter; an awaiting one is stuck until a notification it has not seen. */
  function WaiterNext(g: Gate, w: Waiter): Waiter {
    match w
    case AtCheck => if g.ready then Returned else AtRegister
    case AtRegister => AtRecheck(g.notifications)
    case AtRecheck(seen) => if g.ready then Returned else Awaiting(seen)
    case Awaiting(seen) => if g.notifications > seen then AtCheck else w
    case Returned => w
  }

  function GateStep(g: Gate, e: GateEvent): Gate {
    match e
    case WorkerStep =>
      (match g.worker
       case Starting => g.(ready := true, worker := ReadySet)
       case ReadySet => g.(notifications := g.notifications + 1, worker := Notified)
       case Notified => g)
    case Arrive => g.(waiters := g.waiters + [AtCheck])
    case WaiterStep(who) =>
      if who < |g.waiters| then g.(waiters := g.waiters[who := WaiterNext(g, g.waiters[who])]) else g
  }

  function GateRun(events: seq<GateEvent>): Gate {
    if events == [] then CLOSED_GATE else GateStep(GateRun(events[..|events| - 1]), events[|events| - 1])
  }

  predicate WaiterSafe(g: Gate, w: Waiter) {
    match w
    case AtRecheck(seen) => seen <= g.notifications
    case Awaiting(seen) => seen == 0
    case Returned => g.ready
    case _ => true
  }

  ghost predicate GateInv(g: Gate) {
    && (g.ready <==> g.worker != Starting)
    && g.notifications == (if g.worker == Notified then 1 else 0)
    && forall i :: 0 <= i < |g.waiters| ==> WaiterSafe(g, g.waiters[i])
  }

  lemma {:induction false} GateRunSafe(events: seq<GateEvent>)
    ensures GateInv(GateRun(events))
  {
    if events != [] {
      GateRunSafe(events[..|events| - 1]);
    }
  }

  /** How many of its own steps a waiter still needs once the worker has notified. */
  function StepsLeft(w: Waiter): nat {
    match w case Returned => 0 case AtCheck => 1 case AtRecheck(_) => 1 case AtRegister => 2 case Awaiting(_) => 2
  }

  /** No wake-up is lost: in every interleaving, once the worker has notified, each step of a waiter
      that has not returned brings it closer to returning, so none is stuck; and a waiter that has
      returned saw the worker ready. */
  lemma NoLostWakeUp(events: seq<GateEvent>, who: nat)
    requires who < |GateRun(events).waiters|
    ensures
      var g := GateRun(events);
      var w := g.waiters[who];
      && (w == Returned ==> g.ready)
      && (g.worker == Notified && w != Returned ==> StepsLeft(WaiterNext(g, w)) < StepsLeft(w))
  {
    GateRunSafe(events);
    assert WaiterSafe(GateRun(events), GateRun(events).waiters[who]);
  }

  /** Hence two further steps let every waiter return. */
  lemma TwoStepsSuffice(events: seq<GateEvent>, who: nat)
    requires who < |GateRun(events).waiters| && GateRun(events).worker == Notified
    ensures
      var g := GateRun(events + [WaiterStep(who), WaiterStep(who)]);
      who < |g.waiters| && g.waiters[who] == Returned
  {
    var once, twice := events + [WaiterStep(who)], events + [WaiterStep(who), WaiterStep(who)];
    assert once[..|once| - 1] == events && twice[..|twice| - 1] == once;
    NoLostWakeUp(events, who);
    assert GateRun(once).worker == Notified && |GateRun(once).waiters| == |GateRun(events).waiters|;
    NoLostWakeUp(once, who);
  }
}
