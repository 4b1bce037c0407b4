// src/core/automation/admission.ts: the ordered gates in front of autonomous work.
// Quiet hours and the resource circuit are parameters.
module Admission {
  import opened Basics
  import opened Capacity

  datatype Source =
    | LoopEngineering | DailyTaskAudit | RuntimeGuardian | ProjectRecovery | AutopilotDelegate
    | ResourceGuardian
  datatype Weight = Light | Heavy

  function SourceName(s: Source): (name: string)
    ensures ':' !in name
  {
    match s
    case LoopEngineering => "loop-engineering"
    case DailyTaskAudit => "daily-task-audit"
    case RuntimeGuardian => "runtime-guardian"
    case ProjectRecovery => "project-recovery"
    case AutopilotDelegate => "autopilot-delegate"
    case ResourceGuardian => "resource-guardian"
  }

  lemma SourceNamesDiffer(s: Source, t: Source)
    requires SourceName(s) == SourceName(t)
    ensures s == t
  {
    assert SourceName(s)[0] == SourceName(t)[0];
    assert |SourceName(s)| == |SourceName(t)|;
    assert SourceName(s)[1] == SourceName(t)[1];
  }

  datatype WorkInput = WorkInput(source: Source, trigger: Trigger, weight: Weight, now: int, forced: bool)

  datatype OccurrenceStatus = Planned | AdmittedOnce | SettledOnce | Superseded
  datatype Occurrence = Occurrence(status: OccurrenceStatus, notBefore: int)

  datatype QuietAnswer = QuietAllowed | QuietDenied(reason: string, retryAt: int)
  datatype ResourceAnswer = ResourceAnswer(allowed: bool, reason: string, incidentId: Option<string>)

  // What a caller knows about the host when it asks: the quiet-hours policy, the
  // resource circuit, and the owner's activity.
  datatype Context = Context(
    quiet: (Trigger, int) -> QuietAnswer,
    resource: WorkInput -> ResourceAnswer,
    ownerLastActivityAt: Option<int>,
    interactiveBusy: bool)

  datatype Verdict =
    | Allowed(reason: string, incidentId: Option<string>)
    | Denied(reason: string, incidentId: Option<string>, retryAt: Option<int>)

  const REQUIRED_IDLE_MS := 15 * MINUTE
  const AUTONOMOUS_HEAVY_RETRY_MS := 15 * MINUTE

  predicate IsOwnerTrigger(trigger: Trigger) {
    trigger == Interactive || trigger == Operator
  }

  predicate ShouldSerialize(weight: Weight, trigger: Trigger) {
    weight == Heavy && (trigger == Background || trigger == ResourceRepair)
  }

  function CapacityGate(input: WorkInput, facts: CapacityFacts, repairDepth: Option<int>): CapacityDecision {
    DecideCapacityAdmission(
      input.now, facts.observation.state, facts.observation.resetAt, Some(facts.observation.nextProbeAt),
      input.trigger, facts.activeLeases, facts.lastStart,
      match repairDepth case None => 0 case Some(d) => d)
  }

  function AdmitAutomationWork(
    input: WorkInput, ctx: Context, occurrence: Option<Occurrence>, capacity: Option<CapacityFacts>,
    repairDepth: Option<int>): (verdict: Verdict)
    ensures capacity.Some? ==>
              (verdict.Allowed? <==> EveryGateOpen(input, ctx, occurrence, capacity.value, repairDepth))
    ensures capacity.None? ==> (verdict.Allowed? <==> EveryOtherGateOpen(input, ctx, occurrence))
    ensures verdict.Allowed? ==>
              verdict.reason == ctx.resource(input).reason && verdict.incidentId == ctx.resource(input).incidentId
  {
    if occurrence.Some? && occurrence.value.status == Superseded then
      Denied("occurrence-superseded", None, None)
    else if occurrence.Some? && occurrence.value.status == SettledOnce then
      Denied("occurrence-settled", None, None)
    else if occurrence.Some? && input.now < occurrence.value.notBefore then
      Denied("occurrence-not-before", None, Some(occurrence.value.notBefore))
    else if !IsOwnerTrigger(input.trigger) && ctx.interactiveBusy then
      Denied("interactive-agent-busy", None, Some(input.now + REQUIRED_IDLE_MS))
    else if !IsOwnerTrigger(input.trigger) && ctx.ownerLastActivityAt.Some?
            && input.now - ctx.ownerLastActivityAt.value < REQUIRED_IDLE_MS then
      var last := ctx.ownerLastActivityAt.value;
      Denied("recent-owner-activity", None,
             Some(if last > input.now then input.now + REQUIRED_IDLE_MS else last + REQUIRED_IDLE_MS))
    else
      var quiet := ctx.quiet(input.trigger, input.now);
      if quiet.QuietDenied? then Denied(quiet.reason, None, Some(quiet.retryAt))
      else if capacity.Some? && CapacityGate(input, capacity.value, repairDepth).Deny? then
        var deny := CapacityGate(input, capacity.value, repairDepth);
        Denied(deny.reason, None, deny.retryAt)
      else if capacity.Some? && ShouldSerialize(input.weight, input.trigger) && capacity.value.activeLeases > 0 then
        Denied("autonomous-heavy-active-lease", None, Some(input.now + AUTONOMOUS_HEAVY_RETRY_MS))
      else
        var answer := ctx.resource(input);
        if answer.allowed then Allowed(answer.reason, answer.incidentId)
        else Denied(answer.reason, answer.incidentId, None)
  }

  datatype Gate =
    | OccurrenceGate | NotBeforeGate | BusyGate | ActivityGate | QuietGate | AgentGate | SerialGate | ResourceGate

  // The gates in the order in which they are asked.
  const GATES := [
    OccurrenceGate, NotBeforeGate, BusyGate, ActivityGate, QuietGate, AgentGate, SerialGate, ResourceGate]

  // What each gate that does not look at capacity asks for, on its own.
  ghost predicate HostOpen(gate: Gate, input: WorkInput, ctx: Context, occurrence: Option<Occurrence>) {
    var unattended := input.trigger != Interactive && input.trigger != Operator;
    match gate
    case OccurrenceGate =>
      occurrence.Some? ==> occurrence.value.status == Planned || occurrence.value.status == AdmittedOnce
    case NotBeforeGate => occurrence.Some? ==> occurrence.value.notBefore <= input.now
    case BusyGate => unattended ==> !ctx.interactiveBusy
    case ActivityGate =>
      unattended && ctx.ownerLastActivityAt.Some? ==> ctx.ownerLastActivityAt.value + 15 * MINUTE <= input.now
    case QuietGate => ctx.quiet(input.trigger, input.now).QuietAllowed?
    case ResourceGate => ctx.resource(input).allowed
    case _ => true
  }

  ghost predicate Open(
    gate: Gate, input: WorkInput, ctx: Context, occurrence: Option<Occurrence>, facts: CapacityFacts,
    repairDepth: Option<int>)
  {
    match gate
    case AgentGate => CapacityOpen(input, facts, repairDepth)
    case SerialGate =>
      input.weight == Heavy && (input.trigger == Background || input.trigger == ResourceRepair) ==>
        facts.activeLeases == 0
    case _ => HostOpen(gate, input, ctx, occurrence)
  }

  // Without capacity facts, the two gates that need them are not asked.
  ghost predicate EveryOtherGateOpen(input: WorkInput, ctx: Context, occurrence: Option<Occurrence>) {
    && HostOpen(OccurrenceGate, input, ctx, occurrence)
    && HostOpen(NotBeforeGate, input, ctx, occurrence)
    && HostOpen(BusyGate, input, ctx, occurrence)
    && HostOpen(ActivityGate, input, ctx, occurrence)
    && HostOpen(QuietGate, input, ctx, occurrence)
    && HostOpen(ResourceGate, input, ctx, occurrence)
  }

  // Work passes exactly when every gate lets it through, whatever the order.
  ghost predicate EveryGateOpen(
    input: WorkInput, ctx: Context, occurrence: Option<Occurrence>, facts: CapacityFacts, repairDepth: Option<int>)
  {
    && EveryOtherGateOpen(input, ctx, occurrence)
    && Open(AgentGate, input, ctx, occurrence, facts, repairDepth)
    && Open(SerialGate, input, ctx, occurrence, facts, repairDepth)
  }

  function CapacityReason(facts: CapacityFacts, repairDepth: Option<int>): string {
    if facts.observation.state == Exhausted then "capacity-exhausted"
    else if facts.observation.state == Constrained then "capacity-constrained"
    else if repairDepth.Some? && repairDepth.value > 0 then "capacity-unknown-repair-chain"
    else if facts.activeLeases > 0 then "capacity-unknown-active-lease"
    else "capacity-unknown-cooldown"
  }

  // The capacity gate on its own.
  lemma CapacityGateMeaning(input: WorkInput, facts: CapacityFacts, repairDepth: Option<int>)
    ensures CapacityGate(input, facts, repairDepth).Allow? <==> CapacityOpen(input, facts, repairDepth)
    ensures CapacityGate(input, facts, repairDepth).Deny? ==>
              && CapacityGate(input, facts, repairDepth).reason == CapacityReason(facts, repairDepth)
              && CapacityGate(input, facts, repairDepth).retryAt == CapacityRetry(input, facts, repairDepth)
  {
  }

  // The reason a closed gate gives.
  function ReasonOf(
    gate: Gate, input: WorkInput, ctx: Context, occurrence: Option<Occurrence>, facts: CapacityFacts,
    repairDepth: Option<int>): string
  {
    match gate
    case OccurrenceGate =>
      if occurrence.Some? && occurrence.value.status == Superseded then "occurrence-superseded"
      else "occurrence-settled"
    case NotBeforeGate => "occurrence-not-before"
    case BusyGate => "interactive-agent-busy"
    case ActivityGate => "recent-owner-activity"
    case QuietGate =>
      var quiet := ctx.quiet(input.trigger, input.now);
      if quiet.QuietDenied? then quiet.reason else ""
    case AgentGate => CapacityReason(facts, repairDepth)
    case SerialGate => "autonomous-heavy-active-lease"
    case ResourceGate => ctx.resource(input).reason
  }

  // When a closed gate tells its caller to come back.
  function RetryOf(
    gate: Gate, input: WorkInput, ctx: Context, occurrence: Option<Occurrence>, facts: CapacityFacts,
    repairDepth: Option<int>): Option<int>
  {
    match gate
    case NotBeforeGate => if occurrence.Some? then Some(occurrence.value.notBefore) else None
    case BusyGate => Some(input.now + 900_000)
    case ActivityGate =>
      if ctx.ownerLastActivityAt.Some? then Some(Min(ctx.ownerLastActivityAt.value, input.now) + 900_000) else None
    case QuietGate =>
      var quiet := ctx.quiet(input.trigger, input.now);
      if quiet.QuietDenied? then Some(quiet.retryAt) else None
    case AgentGate => CapacityRetry(input, facts, repairDepth)
    case SerialGate => Some(input.now + 900_000)
    case _ => None
  }

  function CapacityRetry(input: WorkInput, facts: CapacityFacts, repairDepth: Option<int>): Option<int> {
    if facts.observation.state == Exhausted then Some(facts.observation.nextProbeAt)
    else if facts.observation.state == Constrained then None
    else if (repairDepth.Some? && repairDepth.value > 0) || facts.activeLeases > 0 then Some(input.now + 900_000)
    else if facts.lastStart.Some? then Some(facts.lastStart.value + 1_800_000) else None
  }

  // The first closed gate in the order is the one whose reason and retry time are
  // reported, and only the resource circuit names an incident.
  lemma FirstClosedGateIsNamed(
    input: WorkInput, ctx: Context, occurrence: Option<Occurrence>, facts: CapacityFacts, repairDepth: Option<int>,
    k: nat)
    requires k < |GATES| && !Open(GATES[k], input, ctx, occurrence, facts, repairDepth)
    requires forall j :: 0 <= j < k ==> Open(GATES[j], input, ctx, occurrence, facts, repairDepth)
    ensures
      var verdict := AdmitAutomationWork(input, ctx, occurrence, Some(facts), repairDepth);
      && verdict.Denied?
      && verdict.reason == ReasonOf(GATES[k], input, ctx, occurrence, facts, repairDepth)
      && verdict.retryAt == RetryOf(GATES[k], input, ctx, occurrence, facts, repairDepth)
      && verdict.incidentId == (if GATES[k] == ResourceGate then ctx.resource(input).incidentId else None)
  {
    hide *;
    if k < 5 {
      EarlyGateIsNamed(input, ctx, occurrence, facts, repairDepth, k);
    } else {
      LateGateIsNamed(input, ctx, occurrence, facts, repairDepth, k);
    }
  }

  lemma EarlyGateIsNamed(
    input: WorkInput, ctx: Context, occurrence: Option<Occurrence>, facts: CapacityFacts, repairDepth: Option<int>,
    k: nat)
    requires k < 5 && !Open(GATES[k], input, ctx, occurrence, facts, repairDepth)
    requires forall j :: 0 <= j < k ==> Open(GATES[j], input, ctx, occurrence, facts, repairDepth)
    ensures
      var verdict := AdmitAutomationWork(input, ctx, occurrence, Some(facts), repairDepth);
      && verdict.Denied?
      && verdict.reason == ReasonOf(GATES[k], input, ctx, occurrence, facts, repairDepth)
      && verdict.retryAt == RetryOf(GATES[k], input, ctx, occurrence, facts, repairDepth)
      && verdict.incidentId == (if GATES[k] == ResourceGate then ctx.resource(input).incidentId else None)
  {
    hide CapacityGate, CapacityOpen, CapacityReason, CapacityRetry, EveryGateOpen, EveryOtherGateOpen;
    GatesBefore(input, ctx, occurrence, facts, repairDepth, k);
  }

  lemma LateGateIsNamed(
    input: WorkInput, ctx: Context, occurrence: Option<Occurrence>, facts: CapacityFacts, repairDepth: Option<int>,
    k: nat)
    requires 5 <= k < |GATES| && !Open(GATES[k], input, ctx, occurrence, facts, repairDepth)
    requires forall j :: 0 <= j < k ==> Open(GATES[j], input, ctx, occurrence, facts, repairDepth)
    ensures
      var verdict := AdmitAutomationWork(input, ctx, occurrence, Some(facts), repairDepth);
      && verdict.Denied?
      && verdict.reason == ReasonOf(GATES[k], input, ctx, occurrence, facts, repairDepth)
      && verdict.retryAt == RetryOf(GATES[k], input, ctx, occurrence, facts, repairDepth)
      && verdict.incidentId == (if GATES[k] == ResourceGate then ctx.resource(input).incidentId else None)
  {
    hide CapacityGate, CapacityOpen, CapacityReason, CapacityRetry, EveryGateOpen, EveryOtherGateOpen;
    CapacityGateMeaning(input, facts, repairDepth);
    GatesBefore(input, ctx, occurrence, facts, repairDepth, k);
  }

  lemma GatesBefore(
    input: WorkInput, ctx: Context, occurrence: Option<Occurrence>, facts: CapacityFacts, repairDepth: Option<int>,
    k: nat)
    requires k < |GATES|
    requires forall j :: 0 <= j < k ==> Open(GATES[j], input, ctx, occurrence, facts, repairDepth)
    ensures k > 0 ==> Open(OccurrenceGate, input, ctx, occurrence, facts, repairDepth)
    ensures k > 1 ==> Open(NotBeforeGate, input, ctx, occurrence, facts, repairDepth)
    ensures k > 2 ==> Open(BusyGate, input, ctx, occurrence, facts, repairDepth)
    ensures k > 3 ==> Open(ActivityGate, input, ctx, occurrence, facts, repairDepth)
    ensures k > 4 ==> Open(QuietGate, input, ctx, occurrence, facts, repairDepth)
    ensures k > 5 ==> Open(AgentGate, input, ctx, occurrence, facts, repairDepth)
    ensures k > 6 ==> Open(SerialGate, input, ctx, occurrence, facts, repairDepth)
  {
    hide Open, HostOpen;
    assert GATES[0] == OccurrenceGate && GATES[1] == NotBeforeGate && GATES[2] == BusyGate && GATES[3] == ActivityGate;
    assert GATES[4] == QuietGate && GATES[5] == AgentGate && GATES[6] == SerialGate && GATES[7] == ResourceGate;
  }

  // Exhaustion stops everyone; owner work passes otherwise; unattended work needs
  // available capacity, or unknown capacity with nothing running and a rested agent.
  ghost predicate CapacityOpen(input: WorkInput, facts: CapacityFacts, repairDepth: Option<int>) {
    && facts.observation.state != Exhausted
    && (!IsOwnerTrigger(input.trigger) ==>
          || facts.observation.state == Available
          || (&& facts.observation.state == Unknown
              && (repairDepth.Some? ==> repairDepth.value <= 0)
              && facts.activeLeases == 0
              && (facts.lastStart.Some? ==> facts.lastStart.value + UNKNOWN_START_INTERVAL_MS <= input.now)))
  }

  // Asked without capacity facts, the gates answer as with facts that hold nothing back.
  lemma NoFactsHoldNothingBack(
    input: WorkInput, ctx: Context, occurrence: Option<Occurrence>, facts: CapacityFacts, repairDepth: Option<int>)
    requires Open(AgentGate, input, ctx, occurrence, facts, repairDepth)
    requires Open(SerialGate, input, ctx, occurrence, facts, repairDepth)
    ensures AdmitAutomationWork(input, ctx, occurrence, None, repairDepth)
         == AdmitAutomationWork(input, ctx, occurrence, Some(facts), repairDepth)
  {
    CapacityGateMeaning(input, facts, repairDepth);
  }

  // Except for exhaustion, whose stored probe time may be stale, a refusal never sends
  // its caller into the past, and no refusal but those of the occurrence, of quiet hours
  // and of exhaustion puts it off by more than half an hour.
  lemma RetryTimesAreTimely(
    input: WorkInput, ctx: Context, occurrence: Option<Occurrence>, facts: CapacityFacts, repairDepth: Option<int>)
    requires AdmitAutomationWork(input, ctx, occurrence, Some(facts), repairDepth).Denied?
    requires AdmitAutomationWork(input, ctx, occurrence, Some(facts), repairDepth).retryAt.Some?
    requires facts.lastStart.Some? ==> facts.lastStart.value <= input.now
    requires ctx.quiet(input.trigger, input.now).QuietDenied? ==>
              input.now < ctx.quiet(input.trigger, input.now).retryAt
    ensures
      var retryAt := AdmitAutomationWork(input, ctx, occurrence, Some(facts), repairDepth).retryAt.value;
      var quiet := ctx.quiet(input.trigger, input.now);
      && (input.now < retryAt || (facts.observation.state == Exhausted && retryAt == facts.observation.nextProbeAt))
      && (|| retryAt <= input.now + 30 * MINUTE
          || (occurrence.Some? && retryAt == occurrence.value.notBefore)
          || (quiet.QuietDenied? && retryAt == quiet.retryAt)
          || (facts.observation.state == Exhausted && retryAt == facts.observation.nextProbeAt))
  {
  }

  // The retry time of a cooldown refusal is exact: with the same facts, the capacity
  // gate opens then and not before.
  lemma CooldownEndsAtRetry(input: WorkInput, facts: CapacityFacts, repairDepth: Option<int>, later: int)
    requires facts.observation.state == Unknown && !IsOwnerTrigger(input.trigger)
    requires (repairDepth.Some? ==> repairDepth.value <= 0) && facts.activeLeases == 0
    requires CapacityGate(input, facts, repairDepth).Deny?
    ensures CapacityGate(input, facts, repairDepth).retryAt.Some?
    ensures CapacityGate(input.(now := later), facts, repairDepth).Allow?
            <==> CapacityGate(input, facts, repairDepth).retryAt.value <= later
  {
  }

  // Fewer leases and an older (or no) last start never turn an admission into a refusal,
  // and never change what an admission answers.
  lemma FewerLeasesNeverHurt(
    input: WorkInput, ctx: Context, before: Option<Occurrence>, after: Option<Occurrence>,
    facts: CapacityFacts, relaxed: CapacityFacts, repairDepth: Option<int>)
    requires AdmitAutomationWork(input, ctx, before, Some(facts), repairDepth).Allowed?
    requires relaxed.observation == facts.observation && relaxed.activeLeases <= facts.activeLeases
    requires relaxed.lastStart == facts.lastStart || relaxed.lastStart.None?
    requires after == before || (before.Some? && after == Some(before.value.(status := AdmittedOnce)))
    ensures AdmitAutomationWork(input, ctx, after, Some(relaxed), repairDepth)
         == AdmitAutomationWork(input, ctx, before, Some(facts), repairDepth)
  {
  }
}
