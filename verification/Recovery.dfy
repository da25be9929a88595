/** Scheduling of recovery probes (crates/cocli-agent/src/recovery.rs). Times are in seconds. */
module Recovery {
  import opened Prelude

  const U32_MAX: nat := 0xFFFF_FFFF
  const PROBE_BACKOFF_SCHEDULE: seq<nat> := [5 * 60, 10 * 60, 30 * 60, 60 * 60, 120 * 60]

  function ProbeBackoffFor(attempt: nat): (r: nat)
    ensures attempt == 0 ==> r == 5 * 60
    ensures attempt == 1 ==> r == 10 * 60
    ensures attempt == 2 ==> r == 30 * 60
    ensures attempt == 3 ==> r == 60 * 60
    ensures attempt >= 4 ==> r == 120 * 60
  {
    if attempt < |PROBE_BACKOFF_SCHEDULE| then PROBE_BACKOFF_SCHEDULE[attempt]
    else PROBE_BACKOFF_SCHEDULE[|PROBE_BACKOFF_SCHEDULE| - 1]
  }

  datatype ProbeResult = Recovered | StillLimited | Error | NoState

  datatype Entry = Entry(
    provider: string,
    stopReason: string,
    attemptCount: nat,
    expectedRecoveryAt: Option<nat>,
    lastProbeAt: Option<nat>,
    probeInFlight: bool)

  datatype DueProbe = DueProbe(agent: string, provider: string, stopReason: string, attemptCount: nat)

  type Entries = map<string, Entry>

  function Next(attempts: nat): nat {
    if attempts < U32_MAX then attempts + 1 else attempts
  }

  predicate Blank(s: string) {
    forall c :: c in s ==> IsWhitespace(c)
  }

  // ---- The operations -----------------------------------------------------------------------------

  function Registered(entries: Entries, agent: string, provider: string, reason: string, hint: Option<nat>): Entries {
    if Blank(agent) then entries
    else if agent in entries then
      entries[agent := entries[agent].(provider := provider, stopReason := reason, expectedRecoveryAt := hint)]
    else entries[agent := Entry(provider, reason, 0, hint, None, false)]
  }

  function ProbedNow(entries: Entries, agent: string, now: nat): Entries {
    if agent !in entries || entries[agent].probeInFlight then entries
    else entries[agent := entries[agent].(attemptCount := Next(entries[agent].attemptCount), lastProbeAt := Some(now))]
  }

  /** `Instant::duration_since` never goes below zero. */
  function DurationSince(now: nat, earlier: nat): nat {
    if now >= earlier then now - earlier else 0
  }

  predicate IsDue(e: Entry, now: nat) {
    && !e.probeInFlight
    && if e.expectedRecoveryAt.Some? then e.expectedRecoveryAt.value <= now
       else e.lastProbeAt.Some? ==> DurationSince(now, e.lastProbeAt.value) >= ProbeBackoffFor(e.attemptCount)
  }

  function Scheduled(entries: Entries, now: nat): Entries {
    map agent | agent in entries ::
      if IsDue(entries[agent], now) then entries[agent].(probeInFlight := true) else entries[agent]
  }

  function Completed(entries: Entries, agent: string, now: nat, result: ProbeResult): Entries {
    if result == Recovered then entries - {agent}
    else if agent !in entries then entries
    else
      var e := entries[agent].(probeInFlight := false);
      entries[agent :=
        if result == NoState then e
        else e.(attemptCount := Next(e.attemptCount), expectedRecoveryAt := None, lastProbeAt := Some(now))]
  }

  function ProbeOf(agent: string, e: Entry): DueProbe {
    DueProbe(agent, e.provider, e.stopReason, e.attemptCount)
  }

  /** The probe of an agent that is due, as its entry describes it. */
  predicate ProbeIsDue(d: DueProbe, entries: Entries, now: nat) {
    d.agent in entries && IsDue(entries[d.agent], now) && d == ProbeOf(d.agent, entries[d.agent])
  }

  ghost predicate OncePerAgent(due: seq<DueProbe>) {
    forall i, j :: 0 <= i < j < |due| ==> due[i].agent != due[j].agent
  }

  /** The due probes of all agents but those still to be visited. */
  ghost predicate Listed(due: seq<DueProbe>, entries: Entries, rest: set<string>, now: nat) {
    forall d :: d in due <==> ProbeIsDue(d, entries, now) && d.agent !in rest
  }

  lemma ListsDue(due: seq<DueProbe>, entries: Entries, rest: set<string>, now: nat, agent: string)
    requires OncePerAgent(due) && Listed(due, entries, rest, now)
    requires agent in rest && agent in entries && IsDue(entries[agent], now)
    ensures
      var due' := due + [ProbeOf(agent, entries[agent])];
      OncePerAgent(due') && Listed(due', entries, rest - {agent}, now)
  {
    var probe := ProbeOf(agent, entries[agent]);
    var due' := due + [probe];
    forall d ensures d in due' <==> ProbeIsDue(d, entries, now) && d.agent !in rest - {agent} {
      assert d in due' <==> d in due || d == probe;
    }
    forall i | 0 <= i < |due| ensures due[i].agent != agent {
      assert due[i] in due;
    }
  }

  lemma SkipsIdle(due: seq<DueProbe>, entries: Entries, rest: set<string>, now: nat, agent: string)
    requires Listed(due, entries, rest, now)
    requires agent in rest && agent in entries && !IsDue(entries[agent], now)
    ensures Listed(due, entries, rest - {agent}, now)
  {
    forall d ensures d in due <==> ProbeIsDue(d, entries, now) && d.agent !in rest - {agent} {
    }
  }

  class RecoveryStore {
    var entries: Entries

    constructor ()
      ensures entries == map[]
    {
      entries := map[];
    }

    method RegisterWithExpectedRecoveryAt(agent: string, provider: string, reason: string, hint: Option<nat>)
      modifies this
      ensures entries == Registered(old(entries), agent, provider, reason, hint)
    {
      if Blank(agent) {
        return;
      }
      var attempts, last, inFlight := 0, None, false;
      if agent in entries {
        var prior := entries[agent];
        attempts, last, inFlight := prior.attemptCount, prior.lastProbeAt, prior.probeInFlight;
      }
      entries := entries[agent := Entry(provider, reason, attempts, hint, last, inFlight)];
    }

    method ProbeNow(agent: string, now: nat) returns (r: ProbeResult)
      modifies this
      ensures entries == ProbedNow(old(entries), agent, now)
      ensures r == if agent in old(entries) then StillLimited else NoState
    {
      if agent !in entries {
        return NoState;
      }
      var entry := entries[agent];
      if !entry.probeInFlight {
        entries := entries[agent := entry.(attemptCount := Next(entry.attemptCount), lastProbeAt := Some(now))];
      }
      return StillLimited;
    }

    method Clear(agent: string)
      modifies this
      ensures entries == old(entries) - {agent}
    {
      entries := entries - {agent};
    }

    /** Every due agent exactly once, in whatever order the map is visited. */
    method DueProbes(now: nat) returns (due: seq<DueProbe>)
      modifies this
      ensures entries == Scheduled(old(entries), now)
      ensures OncePerAgent(due)
      ensures forall d :: d in due <==> ProbeIsDue(d, old(entries), now)
    {
      due := [];
      ghost var before := entries;
      var rest := entries.Keys;
      while rest != {}
        invariant rest <= before.Keys == entries.Keys
        invariant forall a :: a in rest ==> entries[a] == before[a]
        invariant forall a :: a in before && a !in rest ==> entries[a] == Scheduled(before, now)[a]
        invariant OncePerAgent(due) && Listed(due, before, rest, now)
        decreases |rest|
      {
        var agent :| agent in rest;
        var entry := entries[agent];
        if IsDue(entry, now) {
          ListsDue(due, before, rest, now, agent);
          entries := entries[agent := entry.(probeInFlight := true)];
          due := due + [ProbeOf(agent, entry)];
        } else {
          SkipsIdle(due, before, rest, now, agent);
        }
        rest := rest - {agent};
      }
    }

    method CompleteProbe(agent: string, now: nat, result: ProbeResult)
      modifies this
      ensures entries == Completed(old(entries), agent, now, result)
    {
      if result == Recovered {
        entries := entries - {agent};
        return;
      }
      if agent !in entries {
        return;
      }
      var entry := entries[agent].(probeInFlight := false);
      if result != NoState {
        entry := entry.(attemptCount := Next(entry.attemptCount), expectedRecoveryAt := None, lastProbeAt := Some(now));
      }
      entries := entries[agent := entry];
    }
  }

  // ---- Runs -----------------------------------------------------------------------------------------

  datatype Op =
    | RegisterOp(agent: string, provider: string, reason: string, hint: Option<nat>)
    | ProbeNowOp(agent: string, now: nat)
    | ClearOp(agent: string)
    | DueOp(now: nat)
    | CompleteOp(agent: string, now: nat, result: ProbeResult)

  function Apply(entries: Entries, op: Op): Entries {
    match op
    case RegisterOp(agent, provider, reason, hint) => Registered(entries, agent, provider, reason, hint)
    case ProbeNowOp(agent, now) => ProbedNow(entries, agent, now)
    case ClearOp(agent) => entries - {agent}
    case DueOp(now) => Scheduled(entries, now)
    case CompleteOp(agent, now, result) => Completed(entries, agent, now, result)
  }

  function After(ops: seq<Op>): Entries {
    if ops == [] then map[] else Apply(After(ops[..|ops| - 1]), ops[|ops| - 1])
  }

  /** The `i`-th operation schedules a probe of the agent. */
  predicate Schedules(ops: seq<Op>, i: nat, agent: string)
    requires i < |ops|
  {
    && ops[i].DueOp?
    && agent in After(ops[..i])
    && IsDue(After(ops[..i])[agent], ops[i].now)
  }

  predicate Releases(op: Op, agent: string) {
    (op.CompleteOp? || op.ClearOp?) && op.agent == agent
  }

  lemma AfterStep(ops: seq<Op>, k: nat)
    requires k < |ops|
    ensures After(ops[..k + 1]) == Apply(After(ops[..k]), ops[k])
  {
    assert ops[..k + 1][..k] == ops[..k];
  }

  lemma InFlightStep(entries: Entries, op: Op, agent: string)
    requires agent in entries && entries[agent].probeInFlight && !Releases(op, agent)
    ensures agent in Apply(entries, op) && Apply(entries, op)[agent].probeInFlight
  {
  }

  lemma ScheduledIsInFlight(entries: Entries, op: Op, agent: string)
    requires op.DueOp? && agent in entries && IsDue(entries[agent], op.now)
    ensures agent in Apply(entries, op) && Apply(entries, op)[agent].probeInFlight
  {
  }

  lemma {:induction false} InFlightPersists(ops: seq<Op>, i: nat, j: nat, agent: string)
    requires i < j <= |ops| && Schedules(ops, i, agent)
    requires forall k :: i < k < j ==> !Releases(ops[k], agent)
    ensures agent in After(ops[..j]) && After(ops[..j])[agent].probeInFlight
    decreases j
  {
    AfterStep(ops, j - 1);
    if j > i + 1 {
      InFlightPersists(ops, i, j - 1, agent);
      InFlightStep(After(ops[..j - 1]), ops[j - 1], agent);
    } else {
      ScheduledIsInFlight(After(ops[..i]), ops[i], agent);
    }
  }

  /** Between two probes of one agent lies a completion or a clear, in every run. */
  lemma NeverScheduledTwice(ops: seq<Op>, i: nat, j: nat, agent: string)
    requires i < j < |ops| && Schedules(ops, i, agent) && Schedules(ops, j, agent)
    ensures exists k :: i < k < j && Releases(ops[k], agent)
  {
    if forall k :: i < k < j ==> !Releases(ops[k], agent) {
      InFlightPersists(ops, i, j, agent);
      assert false;
    }
  }

  /** A recorded probe means at least one attempt, in every run; so the first rung is never waited for. */
  lemma {:induction false} ProbeMeansAttempt(ops: seq<Op>, agent: string)
    requires agent in After(ops) && After(ops)[agent].lastProbeAt.Some?
    ensures After(ops)[agent].attemptCount >= 1
    ensures ProbeBackoffFor(After(ops)[agent].attemptCount) >= 10 * 60
  {
    if ops != [] {
      var before := ops[..|ops| - 1];
      if agent in After(before) && After(before)[agent].lastProbeAt.Some? {
        ProbeMeansAttempt(before, agent);
      }
    }
  }

  // ---- The ladder -----------------------------------------------------------------------------------

  /** Failed completions since the agent's entry was created, and the time of the last one. */
  function Failures(ops: seq<Op>, agent: string): (nat, Option<nat>) {
    if ops == [] then (0, None)
    else
      var before, op := ops[..|ops| - 1], ops[|ops| - 1];
      var f := Failures(before, agent);
      if op.ClearOp? && op.agent == agent then (0, None)
      else if op.CompleteOp? && op.agent == agent && op.result == Recovered then (0, None)
      else if op.CompleteOp? && op.agent == agent && op.result != NoState && agent in After(before)
      then (f.0 + 1, Some(op.now))
      else f
  }

  /** The hint in force: that of the last registration, unless a failure or a removal came after it. */
  function HintInForce(ops: seq<Op>, agent: string): Option<nat> {
    if ops == [] then None
    else
      var before, op := ops[..|ops| - 1], ops[|ops| - 1];
      match op
      case RegisterOp(a, _, _, hint) => if a == agent && !Blank(a) then hint else HintInForce(before, agent)
      case ClearOp(a) => if a == agent then None else HintInForce(before, agent)
      case CompleteOp(a, _, result) =>
        if a == agent && result != NoState then None else HintInForce(before, agent)
      case _ => HintInForce(before, agent)
  }

  predicate Timed(op: Op) {
    op.ProbeNowOp? || op.DueOp? || op.CompleteOp?
  }

  /** What the clock showed last. */
  function Latest(ops: seq<Op>): nat {
    if ops == [] then 0
    else if Timed(ops[|ops| - 1]) then ops[|ops| - 1].now
    else Latest(ops[..|ops| - 1])
  }

  /** The clock never goes back. */
  predicate Ticks(ops: seq<Op>) {
    ops == [] || (
      && Ticks(ops[..|ops| - 1])
      && (Timed(ops[|ops| - 1]) ==> Latest(ops[..|ops| - 1]) <= ops[|ops| - 1].now))
  }

  /** An entry has counted at least its failures, was probed no earlier than the last of them, and holds
      the hint in force; manual probes only add to both. */
  lemma {:induction false} EntryTracks(ops: seq<Op>, agent: string)
    requires Ticks(ops)
    ensures
      var (count, last) := Failures(ops, agent);
      && (last.Some? ==> last.value <= Latest(ops))
      && (count > 0 <==> last.Some?)
      && if agent in After(ops) then
           var e := After(ops)[agent];
           && e.attemptCount >= (if count < U32_MAX then count else U32_MAX)
           && (count > 0 ==> e.lastProbeAt.Some? && last.value <= e.lastProbeAt.value)
           && e.expectedRecoveryAt == HintInForce(ops, agent)
         else count == 0 && HintInForce(ops, agent).None?
  {
    if ops != [] {
      EntryTracks(ops[..|ops| - 1], agent);
    }
  }

  /** In every run, manual probes included: a probe scheduled after the k-th failure, with no hint in force,
      comes at least the k-th rung of the ladder after that failure. */
  lemma LadderRespected(ops: seq<Op>, i: nat, agent: string)
    requires i < |ops| && Schedules(ops, i, agent) && Ticks(ops[..i])
    requires HintInForce(ops[..i], agent).None?
    requires Failures(ops[..i], agent).0 > 0
    ensures
      var (k, last) := Failures(ops[..i], agent);
      && last.Some?
      && ops[i].now >= last.value + ProbeBackoffFor(k)
  {
    EntryTracks(ops[..i], agent);
  }

  /** ... and with a hint in force the probe is due exactly when the hint has passed, whatever the ladder says. */
  lemma HintDecides(ops: seq<Op>, i: nat, agent: string)
    requires i < |ops| && ops[i].DueOp? && Ticks(ops[..i]) && HintInForce(ops[..i], agent).Some?
    ensures agent in After(ops[..i])
    ensures Schedules(ops, i, agent)
       <==> !After(ops[..i])[agent].probeInFlight && HintInForce(ops[..i], agent).value <= ops[i].now
  {
    EntryTracks(ops[..i], agent);
  }

  /** A hint overrides the ladder: a registration after a failure may make the probe due at once. */
  lemma HintOverridesLadder(agent: string, provider: string, reason: string, now: nat)
    requires !Blank(agent)
    ensures
      var ops := [RegisterOp(agent, provider, reason, None), CompleteOp(agent, now, StillLimited),
                  RegisterOp(agent, provider, reason, Some(now)), DueOp(now)];
      Schedules(ops, 3, agent) && Failures(ops[..3], agent) == (1, Some(now))
  {
    var a, b, c := RegisterOp(agent, provider, reason, None), CompleteOp(agent, now, StillLimited),
                   RegisterOp(agent, provider, reason, Some(now));
    var ops := [a, b, c, DueOp(now)];
    assert ops[..3] == [a, b, c] && [a, b, c][..2] == [a, b] && [a, b][..1] == [a] && [a][..0] == [];
    assert After([a]) == Apply(map[], a);
    assert After([a, b]) == Apply(After([a]), b);
    assert Failures([a], agent) == (0, None);
    assert Failures([a, b], agent) == (1, Some(now));
  }
}
