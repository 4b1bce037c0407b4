// src/core/automation/coordinator.ts: asking for, holding, rechecking and settling
// permission to run. Each call reads the clock once. The stores are objects that the
// coordinator updates; World is their joint value, and every method is proved against
// a function on it, and against the journal entry it writes.
module Coordinator {
  import opened Basics
  import opened Capacity
  import opened Admission
  import opened CapacityStore
  import Journal

  datatype World = World(records: Records, occurrences: map<string, Occurrence>)

  datatype Intent = Intent(
    id: string, source: Source, trigger: Trigger, weight: Weight, agent: Agent, forced: bool,
    occurrenceId: Option<string>, repairDepth: Option<int>)

  datatype LeaseHandle = LeaseHandle(leaseId: string, intent: Intent)

  datatype FinalVerdict =
    | Granted(reason: string, incidentId: Option<string>, lease: LeaseHandle)
    | Refused(reason: string, incidentId: Option<string>, retryAt: Option<int>)

  function LeaseIdOf(source: Source, id: string): string {
    "autonomous:" + SourceName(source) + ":" + id
  }

  function LeaseId(intent: Intent): string {
    LeaseIdOf(intent.source, intent.id)
  }

  // ---- Lease ids are injective -------------------------------------------------

  lemma LeaseIdText(id: string)
    ensures LeaseIdOf(LoopEngineering, id) == "autonomous:" + "loop-engineering" + ":" + id
    ensures LeaseIdOf(DailyTaskAudit, id) == "autonomous:" + "daily-task-audit" + ":" + id
    ensures LeaseIdOf(RuntimeGuardian, id) == "autonomous:" + "runtime-guardian" + ":" + id
    ensures LeaseIdOf(ProjectRecovery, id) == "autonomous:" + "project-recovery" + ":" + id
    ensures LeaseIdOf(AutopilotDelegate, id) == "autonomous:" + "autopilot-delegate" + ":" + id
    ensures LeaseIdOf(ResourceGuardian, id) == "autonomous:" + "resource-guardian" + ":" + id
  {
  }

  lemma LeaseIdInjective(s: Source, id: string, t: Source, other: string)
    ensures LeaseIdOf(s, id) == LeaseIdOf(t, other) <==> s == t && id == other
  {
    hide SourceName;
    if LeaseIdOf(s, id) == LeaseIdOf(t, other) {
      var prefix := "autonomous:";
      assert LeaseIdOf(s, id)[|prefix|..] == SourceName(s) + ":" + id;
      assert LeaseIdOf(t, other)[|prefix|..] == SourceName(t) + ":" + other;
      FirstSeparatorSplitsOnce(':', SourceName(s), SourceName(t), id, other);
      SourceNamesDiffer(s, t);
    }
  }

  // ---- The coordinator as functions on the world -------------------------------

  function OccurrenceOf(w: World, intent: Intent): Option<Occurrence> {
    if intent.occurrenceId.Some? && intent.occurrenceId.value in w.occurrences
    then Some(w.occurrences[intent.occurrenceId.value]) else None
  }

  // What is shown to the gates when the caller already owns `owned` leases.
  function SeenCapacity(rs: Records, agent: Agent, owned: nat, now: int): CapacityFacts {
    var facts := ReadCapacity(rs, agent, now);
    facts.(activeLeases := if facts.activeLeases < owned then 0 else facts.activeLeases - owned,
           lastStart := if owned > 0 then None else facts.lastStart)
  }

  function Decide(w: World, intent: Intent, ctx: Context, owned: nat, now: int): Verdict {
    AdmitAutomationWork(
      WorkInput(intent.source, intent.trigger, intent.weight, now, intent.forced), ctx,
      OccurrenceOf(w, intent),
      Some(SeenCapacity(EnsuredUnknown(w.records, intent.agent, now), intent.agent, owned, now)),
      intent.repairDepth)
  }

  // The gates are asked about the intent's own fields, its own occurrence and its agent's
  // capacity, and an allowed answer is the resource circuit's.
  lemma WhatIsDecided(w: World, intent: Intent, ctx: Context, owned: nat, now: int)
    ensures
      var input := WorkInput(intent.source, intent.trigger, intent.weight, now, intent.forced);
      var occurrence :=
        if intent.occurrenceId.Some? && intent.occurrenceId.value in w.occurrences
        then Some(w.occurrences[intent.occurrenceId.value]) else None;
      var read := ReadCapacity(EnsuredUnknown(w.records, intent.agent, now), intent.agent, now);
      var facts := CapacityFacts(read.observation, Max(0, read.activeLeases - owned),
                                 if owned == 0 then read.lastStart else None);
      var verdict := Decide(w, intent, ctx, owned, now);
      && (verdict.Allowed? <==> EveryGateOpen(input, ctx, occurrence, facts, intent.repairDepth))
      && (verdict.Allowed? ==>
            verdict.reason == ctx.resource(input).reason && verdict.incidentId == ctx.resource(input).incidentId)
      && forall k :: 0 <= k < |GATES| && !Open(GATES[k], input, ctx, occurrence, facts, intent.repairDepth)
                     && (forall j :: 0 <= j < k ==> Open(GATES[j], input, ctx, occurrence, facts, intent.repairDepth))
           ==> && verdict.Denied?
               && verdict.reason == ReasonOf(GATES[k], input, ctx, occurrence, facts, intent.repairDepth)
               && verdict.retryAt == RetryOf(GATES[k], input, ctx, occurrence, facts, intent.repairDepth)
  {
    var input := WorkInput(intent.source, intent.trigger, intent.weight, now, intent.forced);
    var facts := SeenCapacity(EnsuredUnknown(w.records, intent.agent, now), intent.agent, owned, now);
    var occurrence := OccurrenceOf(w, intent);
    forall k | 0 <= k < |GATES| && !Open(GATES[k], input, ctx, occurrence, facts, intent.repairDepth)
               && (forall j :: 0 <= j < k ==> Open(GATES[j], input, ctx, occurrence, facts, intent.repairDepth))
      ensures Decide(w, intent, ctx, owned, now).Denied?
      ensures Decide(w, intent, ctx, owned, now).reason
           == ReasonOf(GATES[k], input, ctx, occurrence, facts, intent.repairDepth)
      ensures Decide(w, intent, ctx, owned, now).retryAt
           == RetryOf(GATES[k], input, ctx, occurrence, facts, intent.repairDepth)
    {
      FirstClosedGateIsNamed(input, ctx, occurrence, facts, intent.repairDepth, k);
    }
    hide ReasonOf, RetryOf, Open, EveryGateOpen, AdmitAutomationWork, ReadCapacity, EnsuredUnknown;
  }

  function Asked(w: World, agent: Agent, now: int): World {
    w.(records := EnsuredUnknown(w.records, agent, now))
  }

  function Owned(w: World, intent: Intent, now: int): nat {
    if LeaseId(intent) in Live(w.records, intent.agent, now) then 1 else 0
  }

  function WithStatus(occurrences: map<string, Occurrence>, id: string, status: OccurrenceStatus)
    : map<string, Occurrence>
  {
    if id !in occurrences || occurrences[id].status == Superseded then occurrences
    else occurrences[id := occurrences[id].(status := status)]
  }

  function MarkOccurrence(w: World, intent: Intent, status: OccurrenceStatus): World {
    match intent.occurrenceId
    case None => w
    case Some(id) => w.(occurrences := WithStatus(w.occurrences, id, status))
  }

  // The admission an `admit` call computes before it takes the lease.
  function AdmitVerdict(w: World, intent: Intent, ctx: Context, now: int): Verdict {
    Decide(w, intent, ctx, Owned(w, intent, now), now)
  }

  // The world once the lease is taken, the start noted and the occurrence marked.
  function Taken(w: World, intent: Intent, now: int): World {
    var asked := Asked(w, intent.agent, now);
    var held := asked.(records := WithStart(WithLease(asked.records, intent.agent, LeaseId(intent), now),
                                            intent.agent, now));
    MarkOccurrence(held, intent, AdmittedOnce)
  }

  function Admitted(w: World, intent: Intent, ctx: Context, now: int): World {
    if AdmitVerdict(w, intent, ctx, now).Denied? then Asked(w, intent.agent, now) else Taken(w, intent, now)
  }

  function Revalidated(w: World, lease: LeaseHandle, ctx: Context, now: int): Verdict {
    Decide(w, lease.intent, ctx, 1, now)
  }

  function Settled(w: World, lease: LeaseHandle, settleOccurrence: bool): World {
    var released := w.(records := WithoutLease(w.records, lease.intent.agent, lease.leaseId));
    if settleOccurrence then MarkOccurrence(released, lease.intent, SettledOnce) else released
  }

  // How an admitted operation ended. The caller's own settle predicate, if it gave one,
  // is consulted only after the operation returned, and may itself throw.
  datatype PredicateAnswer = NoPredicate | Says(settle: bool) | PredicateThrew
  datatype Outcome = Returned(answer: PredicateAnswer) | Threw

  // The predicate is evaluated before settling, so when it throws nothing is settled.
  function Finished(w: World, lease: LeaseHandle, outcome: Outcome): World {
    match outcome
    case Threw => Settled(w, lease, false)
    case Returned(NoPredicate) => Settled(w, lease, true)
    case Returned(Says(settle)) => Settled(w, lease, settle)
    case Returned(PredicateThrew) => w
  }

  // The result of parsing an agent's output for an official limit notice:
  // nothing found, or found with a known or unknown reset time.
  datatype LimitNotice = NoNotice | Notice(resetAt: Option<int>)

  function LimitObservation(rs: Records, agent: Agent, resetAt: Option<int>, now: int): Observation {
    var current := ReadCapacity(rs, agent, now).observation;
    Observation(agent, current.authentication, Exhausted, current.fiveHourPct, current.weeklyPct, resetAt, now,
                ExhaustedNextProbeAt(now, resetAt), "official-limit-signal")
  }

  // A limit is an exhaustion observed now that keeps what was read of the agent.
  lemma LimitFields(rs: Records, agent: Agent, resetAt: Option<int>, now: int)
    ensures
      var o, read := LimitObservation(rs, agent, resetAt, now), ReadCapacity(rs, agent, now).observation;
      && o.agent == agent && o.state == Exhausted && o.resetAt == resetAt && o.observedAt == now
      && o.authentication == read.authentication && o.fiveHourPct == read.fiveHourPct && o.weeklyPct == read.weeklyPct
      && o.nextProbeAt == (if resetAt.Some? && resetAt.value < now + 900_000 then resetAt.value else now + 900_000)
      && o.latestReason == "official-limit-signal"
  {
  }

  function LimitSignalled(w: World, agent: Agent, notice: LimitNotice, now: int): World {
    match notice
    case NoNotice => w
    case Notice(resetAt) => w.(records := WithObservation(w.records, LimitObservation(w.records, agent, resetAt, now)))
  }

  datatype Transition = Transition(
    agent: Agent, from: CapacityState, to: CapacityState, reason: string, resetAt: Option<int>)

  function TransitionOf(rs: Records, o: Observation): Option<Transition> {
    var previous := ReadCapacity(rs, o.agent, o.observedAt).observation;
    if previous.observedAt == 0 || previous.state == o.state then None
    else Some(Transition(o.agent, previous.state, o.state, o.latestReason, o.resetAt))
  }

  // The transition that is reported is the change that readers see when the observation is
  // recorded: there is one exactly when something was known and the state they read
  // differs, and it names both states.
  ghost predicate ReportsWhatReadersSee(rs: Records, o: Observation, now: int) {
    var before := ReadCapacity(rs, o.agent, now).observation;
    var after := ReadCapacity(WithObservation(rs, o), o.agent, now).observation;
    && (TransitionOf(rs, o).Some? <==> before.observedAt != 0 && before.state != after.state)
    && (TransitionOf(rs, o).Some? ==>
          && TransitionOf(rs, o).value.from == before.state && TransitionOf(rs, o).value.to == after.state
          && TransitionOf(rs, o).value.agent == o.agent
          && TransitionOf(rs, o).value.reason == o.latestReason && TransitionOf(rs, o).value.resetAt == o.resetAt)
  }

  // What was recorded was an exhaustion whose reset came between observing and recording.
  predicate OverMeanwhile(rs: Records, o: Observation, now: int) {
    match ValidRecord(rs, o.agent)
    case None => false
    case Some(r) => ResetPassed(r.observation, now) && !ResetPassed(r.observation, o.observedAt)
  }

  // An observation may be recorded later than it was made. Then the report is right
  // exactly if nothing was known of the agent, or the old exhaustion ended in between just
  // when the new one did: neither of them, or both.
  lemma TransitionIsWhatReadersSee(rs: Records, o: Observation, now: int)
    requires o.observedAt <= now
    ensures ReportsWhatReadersSee(rs, o, now) <==>
            || ReadCapacity(rs, o.agent, o.observedAt).observation.observedAt == 0
            || (OverMeanwhile(rs, o, now) <==> ResetPassed(o, now))
  {
  }

  // What telemetry and limit notices say is reported right when it is recorded at once.
  lemma DerivedIsReportedRight(rs: Records, input: Telemetry)
    ensures ReportsWhatReadersSee(rs, DeriveAgentCapacity(input), input.now)
  {
    DerivedFields(input);
    DerivedProbeTime(input);
    hide DeriveAgentCapacity;
    TransitionIsWhatReadersSee(rs, DeriveAgentCapacity(input), input.now);
  }

  lemma LimitIsReportedRight(rs: Records, agent: Agent, resetAt: Option<int>, now: int)
    requires resetAt.Some? ==> now < resetAt.value
    ensures ReportsWhatReadersSee(rs, LimitObservation(rs, agent, resetAt, now), now)
  {
    TransitionIsWhatReadersSee(rs, LimitObservation(rs, agent, resetAt, now), now);
  }

  // ---- What is written to the journal -------------------------------------------------

  function DecisionEvent(intent: Intent, kind: Journal.Kind, reason: string, retryAt: Option<int>, now: int)
    : Journal.Event
  {
    Journal.Event(now, kind, intent.source, intent.id, Some(intent.agent), intent.occurrenceId, reason, retryAt)
  }

  // Deciding notes refusals only.
  function DecisionEntry(intent: Intent, verdict: Verdict, now: int): Option<Journal.Event> {
    match verdict
    case Allowed(_, _) => None
    case Denied(reason, _, retryAt) => Some(DecisionEvent(intent, Journal.Deferred, reason, retryAt, now))
  }

  function AdmissionEntry(intent: Intent, verdict: Verdict, now: int): Journal.Event {
    match verdict
    case Allowed(reason, _) => DecisionEvent(intent, Journal.AdmittedEvent, reason, None, now)
    case Denied(reason, _, retryAt) => DecisionEvent(intent, Journal.Deferred, reason, retryAt, now)
  }

  function SettlementEntry(intent: Intent, now: int): Journal.Event {
    DecisionEvent(intent, Journal.SettledEvent, "execution-settled", None, now)
  }

  function StateName(state: CapacityState): string {
    match state
    case Available => "available"
    case Constrained => "constrained"
    case Exhausted => "exhausted"
    case Unknown => "unknown"
  }

  function TransitionEvent(t: Transition, observedAt: int, source: Source): Journal.Event {
    Journal.Event(
      observedAt, Journal.CapacityTransition, source,
      "capacity:" + Journal.AgentName(t.agent) + ":" + StateName(t.from) + ":" + StateName(t.to), Some(t.agent), None,
      StateName(t.from) + "->" + StateName(t.to) + ":" + t.reason, t.resetAt)
  }

  function TransitionEntry(rs: Records, o: Observation, source: Source): Option<Journal.Event> {
    match TransitionOf(rs, o)
    case None => None
    case Some(t) => Some(TransitionEvent(t, o.observedAt, source))
  }

  function LimitEntry(rs: Records, agent: Agent, notice: LimitNotice, source: Source, now: int): Option<Journal.Event> {
    match notice
    case NoNotice => None
    case Notice(resetAt) => TransitionEntry(rs, LimitObservation(rs, agent, resetAt, now), source)
  }

  function Wrote(j: Journal.State, entry: Option<Journal.Event>): Journal.State {
    match entry case None => j case Some(e) => Journal.Appended(j, e)
  }

  // The fields of what is written: a decision names the intent, its source, agent and
  // occurrence; a transition the states before and after, the reason and the reset.
  lemma WhatIsWritten(w: World, intent: Intent, verdict: Verdict, now: int)
    ensures DecisionEntry(intent, verdict, now)
         == match verdict
            case Allowed(_, _) => None
            case Denied(reason, _, retryAt) =>
              Some(Journal.Event(now, Journal.Deferred, intent.source, intent.id, Some(intent.agent),
                                 intent.occurrenceId, reason, retryAt))
    ensures AdmissionEntry(intent, verdict, now)
         == match verdict
            case Allowed(reason, _) =>
              Journal.Event(now, Journal.AdmittedEvent, intent.source, intent.id, Some(intent.agent),
                            intent.occurrenceId, reason, None)
            case Denied(reason, _, retryAt) =>
              Journal.Event(now, Journal.Deferred, intent.source, intent.id, Some(intent.agent), intent.occurrenceId,
                            reason, retryAt)
    ensures SettlementEntry(intent, now)
         == Journal.Event(now, Journal.SettledEvent, intent.source, intent.id, Some(intent.agent), intent.occurrenceId,
                          "execution-settled", None)
  {
  }

  lemma WhatTransitionIsWritten(rs: Records, o: Observation, source: Source)
    ensures TransitionEntry(rs, o, source).Some? <==> TransitionOf(rs, o).Some?
    ensures TransitionOf(rs, o).Some? ==>
      var e, t := TransitionEntry(rs, o, source).value, TransitionOf(rs, o).value;
      && e.at == o.observedAt && e.kind == Journal.CapacityTransition && e.source == source
      && e.agent == Some(o.agent) && e.occurrenceId.None? && e.retryAt == o.resetAt
      && e.intentId == "capacity:" + Journal.AgentName(o.agent) + ":" + StateName(t.from) + ":" + StateName(o.state)
      && e.reason == StateName(t.from) + "->" + StateName(o.state) + ":" + o.latestReason
  {
  }

  // ---- The coordinator as an object --------------------------------------------

  class OccurrenceStore {
    var records: map<string, Occurrence>

    method SetStatus(id: string, status: OccurrenceStatus) returns (changed: bool)
      modifies this
      ensures records == WithStatus(old(records), id, status)
      ensures changed <==> id in old(records) && old(records)[id].status != Superseded
    {
      if id !in records || records[id].status == Superseded { return false; }
      records := records[id := records[id].(status := status)];
      return true;
    }
  }

  class AutonomousWorkCoordinator {
    const capacity: AgentCapacityStore
    const occurrences: OccurrenceStore
    const journal: Journal.AdmissionJournal
    const notifies: bool                // whether a transition callback was given
    var delivered: seq<Transition>      // what it was called with

    constructor (
      capacity: AgentCapacityStore, occurrences: OccurrenceStore, journal: Journal.AdmissionJournal, notifies: bool)
      requires journal.Valid()
      ensures this.capacity == capacity && this.occurrences == occurrences && this.journal == journal
      ensures Valid() && this.notifies == notifies && delivered == []
    {
      this.capacity := capacity;
      this.occurrences := occurrences;
      this.journal := journal;
      this.notifies := notifies;
      delivered := [];
    }

    ghost predicate Valid()
      reads journal
    {
      journal.Valid()
    }

    ghost function State(): World
      reads capacity, occurrences
    {
      World(capacity.records, occurrences.records)
    }

    method RecordDecision(intent: Intent, kind: Journal.Kind, reason: string, retryAt: Option<int>, now: int)
      requires Valid()
      modifies journal
      ensures Valid()
      ensures journal.Value()
           == Journal.Appended(old(journal.Value()),
                               Journal.Event(now, kind, intent.source, intent.id, Some(intent.agent),
                                             intent.occurrenceId, reason, retryAt))
    {
      var _ := journal.Append(
        Journal.Event(now, kind, intent.source, intent.id, Some(intent.agent), intent.occurrenceId, reason, retryAt));
    }

    method DecideWith(intent: Intent, ctx: Context, owned: nat, now: int) returns (verdict: Verdict)
      requires Valid()
      modifies capacity, journal
      ensures Valid() && State() == Asked(old(State()), intent.agent, now)
      ensures verdict == Decide(old(State()), intent, ctx, owned, now)
      ensures journal.Value() == Wrote(old(journal.Value()), DecisionEntry(intent, verdict, now))
    {
      hide AdmitAutomationWork, EveryGateOpen, EveryOtherGateOpen;
      capacity.EnsureUnknown(intent.agent, now);
      var occurrence: Option<Occurrence> := None;
      if intent.occurrenceId.Some? && intent.occurrenceId.value in occurrences.records {
        occurrence := Some(occurrences.records[intent.occurrenceId.value]);
      }
      var facts := capacity.Read(intent.agent, now);
      var seen := facts.(activeLeases := if facts.activeLeases < owned then 0 else facts.activeLeases - owned,
                         lastStart := if owned > 0 then None else facts.lastStart);
      verdict := AdmitAutomationWork(
        WorkInput(intent.source, intent.trigger, intent.weight, now, intent.forced), ctx, occurrence, Some(seen),
        intent.repairDepth);
      if verdict.Denied? {
        RecordDecision(intent, Journal.Deferred, verdict.reason, verdict.retryAt, now);
      }
    }

    method Precheck(intent: Intent, ctx: Context, now: int) returns (verdict: Verdict)
      requires Valid()
      modifies capacity, journal
      ensures Valid() && State() == Asked(old(State()), intent.agent, now)
      ensures verdict == Decide(old(State()), intent, ctx, 0, now)
      ensures journal.Value() == Wrote(old(journal.Value()), DecisionEntry(intent, verdict, now))
    {
      verdict := DecideWith(intent, ctx, 0, now);
    }

    method Revalidate(lease: LeaseHandle, ctx: Context, now: int) returns (verdict: Verdict)
      requires Valid()
      modifies capacity, journal
      ensures Valid() && State() == Asked(old(State()), lease.intent.agent, now)
      ensures verdict == Revalidated(old(State()), lease, ctx, now)
      ensures journal.Value() == Wrote(old(journal.Value()), DecisionEntry(lease.intent, verdict, now))
    {
      verdict := DecideWith(lease.intent, ctx, 1, now);
    }

    // The capacity-state-unavailable refusal (and its journal entry) never happens:
    // deciding has just made sure that a valid record exists.
    method Admit(intent: Intent, ctx: Context, now: int) returns (final: FinalVerdict)
      requires Valid()
      modifies capacity, occurrences, journal
      ensures Valid() && State() == Admitted(old(State()), intent, ctx, now)
      ensures final == match AdmitVerdict(old(State()), intent, ctx, now)
                       case Allowed(reason, incident) => Granted(reason, incident, LeaseHandle(LeaseId(intent), intent))
                       case Denied(reason, incident, retryAt) => Refused(reason, incident, retryAt)
      ensures journal.Value()
           == Journal.Appended(old(journal.Value()),
                               AdmissionEntry(intent, AdmitVerdict(old(State()), intent, ctx, now), now))
    {
      var leaseId := LeaseId(intent);
      var has := capacity.HasLease(intent.agent, leaseId, now);
      var verdict := DecideWith(intent, ctx, if has then 1 else 0, now);
      if verdict.Denied? {
        return Refused(verdict.reason, verdict.incidentId, verdict.retryAt);
      }
      var acquired := capacity.AcquireLease(intent.agent, leaseId, now);
      if !acquired {
        return Refused("capacity-state-unavailable", None, None);
      }
      var _ := capacity.RecordAutonomousStart(intent.agent, now);
      if intent.occurrenceId.Some? {
        var _ := occurrences.SetStatus(intent.occurrenceId.value, AdmittedOnce);
      }
      RecordDecision(intent, Journal.AdmittedEvent, verdict.reason, None, now);
      return Granted(verdict.reason, verdict.incidentId, LeaseHandle(leaseId, intent));
    }

    method Settle(lease: LeaseHandle, settleOccurrence: bool, now: int)
      requires Valid()
      modifies capacity, occurrences, journal
      ensures Valid() && State() == Settled(old(State()), lease, settleOccurrence)
      ensures journal.Value() == Journal.Appended(old(journal.Value()), SettlementEntry(lease.intent, now))
    {
      var _ := capacity.ReleaseLease(lease.intent.agent, lease.leaseId);
      if lease.intent.occurrenceId.Some? && settleOccurrence {
        var _ := occurrences.SetStatus(lease.intent.occurrenceId.value, SettledOnce);
      }
      RecordDecision(lease.intent, Journal.SettledEvent, "execution-settled", None, now);
    }

    // The tail of execute, after the awaited operation has ended.
    method FinishExecution(lease: LeaseHandle, outcome: Outcome, now: int) returns (predicateEscaped: bool)
      requires Valid()
      modifies capacity, occurrences, journal
      ensures Valid() && State() == Finished(old(State()), lease, outcome)
      ensures predicateEscaped <==> outcome == Returned(PredicateThrew)
      ensures journal.Value()
           == Wrote(old(journal.Value()), if predicateEscaped then None else Some(SettlementEntry(lease.intent, now)))
    {
      var completed := outcome.Returned?;
      var settleOccurrence := false;
      if completed {
        match outcome.answer {
          case PredicateThrew => return true;
          case Says(settle) => settleOccurrence := settle;
          case NoPredicate => settleOccurrence := true;
        }
      }
      Settle(lease, settleOccurrence, now);
      return false;
    }

    method SettleOccurrence(id: string) returns (changed: bool)
      modifies occurrences
      ensures State() == old(State()).(occurrences := WithStatus(old(State()).occurrences, id, SettledOnce))
      ensures changed <==> id in old(State()).occurrences && old(State()).occurrences[id].status != Superseded
    {
      changed := occurrences.SetStatus(id, SettledOnce);
    }

    method RecordCapacityObservation(o: Observation, source: Source)
      requires Valid()
      modifies this`delivered, capacity, journal
      ensures Valid() && State() == old(State()).(records := WithObservation(old(State()).records, o))
      ensures journal.Value() == Wrote(old(journal.Value()), TransitionEntry(old(State()).records, o, source))
      ensures delivered == old(delivered)
                         + if notifies && TransitionOf(old(State()).records, o).Some?
                           then [TransitionOf(old(State()).records, o).value] else []
    {
      var previous := capacity.Read(o.agent, o.observedAt);
      capacity.RecordObservation(o);
      if previous.observation.observedAt == 0 || previous.observation.state == o.state { return; }
      var transition := Transition(o.agent, previous.observation.state, o.state, o.latestReason, o.resetAt);
      var _ := journal.Append(TransitionEvent(transition, o.observedAt, source));
      if notifies { delivered := delivered + [transition]; }
    }

    method RecordLimitSignal(agent: Agent, notice: LimitNotice, source: Source, now: int) returns (found: bool)
      requires Valid()
      modifies this`delivered, capacity, journal
      ensures Valid() && (found <==> notice.Notice?)
      ensures State() == LimitSignalled(old(State()), agent, notice, now)
      ensures journal.Value()
           == Wrote(old(journal.Value()), LimitEntry(old(State()).records, agent, notice, source, now))
      ensures notice.NoNotice? ==> delivered == old(delivered)
      ensures notice.Notice? ==>
        var o := LimitObservation(old(State()).records, agent, notice.resetAt, now);
        delivered == old(delivered)
                     + if notifies && TransitionOf(old(State()).records, o).Some?
                       then [TransitionOf(old(State()).records, o).value] else []
    {
      if notice.NoNotice? { return false; }
      var facts := capacity.Read(agent, now);
      var current := facts.observation;
      RecordCapacityObservation(
        Observation(agent, current.authentication, Exhausted, current.fiveHourPct, current.weeklyPct, notice.resetAt,
                    now, ExhaustedNextProbeAt(now, notice.resetAt), "official-limit-signal"),
        source);
      found := true;
    }
  }

  // ---- Rechecking a held lease -------------------------------------------------

  // The world in which this lease was never taken and nothing has started yet.
  function WithoutOwnTraces(w: World, agent: Agent, leaseId: string): World {
    match ValidRecord(w.records, agent)
    case None => w
    case Some(r) => w.(records := w.records[agent := r.(leases := r.leases - {leaseId}, lastStart := None)])
  }

  // The capacity shown on a recheck is the capacity of the world without the lease
  // exactly when the lease is still unexpired or it would have been the only one
  // anyway: a lapsed lease hides somebody else's.
  lemma RevalidationSeesOthers(w: World, lease: LeaseHandle, now: int)
    requires ValidRecord(w.records, lease.intent.agent).Some?
    ensures
      var agent := lease.intent.agent;
      SeenCapacity(w.records, agent, 1, now)
        == SeenCapacity(WithoutOwnTraces(w, agent, lease.leaseId).records, agent, 0, now)
      <==> lease.leaseId in Live(w.records, agent, now) || Live(w.records, agent, now) == {}
  {
    var agent := lease.intent.agent;
    var live := Live(w.records, agent, now);
    assert Live(WithoutOwnTraces(w, agent, lease.leaseId).records, agent, now) == live - {lease.leaseId};
    if lease.leaseId in live {
      assert |live - {lease.leaseId}| == |live| - 1;
    } else {
      assert live - {lease.leaseId} == live;
      assert |live| == 0 <==> live == {};
    }
  }

  // Rechecking an unexpired lease decides exactly as a fresh request in the world
  // without that lease and its start.
  lemma RevalidateAsIfFresh(w: World, lease: LeaseHandle, ctx: Context, now: int)
    requires lease.leaseId in Live(w.records, lease.intent.agent, now)
    ensures Revalidated(w, lease, ctx, now)
         == Decide(WithoutOwnTraces(w, lease.intent.agent, lease.leaseId), lease.intent, ctx, 0, now)
  {
    RevalidationSeesOthers(w, lease, now);
  }

  lemma LiveAfterAdmission(w: World, intent: Intent, ctx: Context, now: int, agent: Agent)
    ensures Live(Admitted(w, intent, ctx, now).records, agent, now)
         == Live(w.records, agent, now)
          + (if agent == intent.agent && AdmitVerdict(w, intent, ctx, now).Allowed? then {LeaseId(intent)} else {})
  {
    hide AdmitVerdict;
    var asked := EnsuredUnknown(w.records, intent.agent, now);
    LiveWhenAsked(w.records, intent.agent, now, agent);
    if AdmitVerdict(w, intent, ctx, now).Allowed? {
      LiveWithLease(asked, intent.agent, LeaseId(intent), now, agent);
    }
  }

  // What a recheck right after an admission sees: the same observation, no more leases,
  // no last start.
  lemma SeenAfterAdmission(w: World, intent: Intent, now: int)
    ensures
      var asked, after := EnsuredUnknown(w.records, intent.agent, now), Taken(w, intent, now).records;
      var before := SeenCapacity(asked, intent.agent, Owned(w, intent, now), now);
      var recheck := SeenCapacity(after, intent.agent, 1, now);
      && EnsuredUnknown(after, intent.agent, now) == after
      && recheck.observation == before.observation
      && recheck.activeLeases == before.activeLeases && recheck.lastStart.None?
  {
    var agent, id := intent.agent, LeaseId(intent);
    var asked := EnsuredUnknown(w.records, agent, now);
    LiveWhenAsked(w.records, agent, now, agent);
    LiveWithLease(asked, agent, id, now, agent);
    var live := Live(w.records, agent, now);
    assert live + {id} == (live - {id}) + {id};
    assert |live + {id}| == |live - {id}| + 1;
    assert id !in live ==> live - {id} == live;
  }

  lemma TakenOccurrence(w: World, intent: Intent, now: int)
    ensures OccurrenceOf(Taken(w, intent, now), intent)
         == match OccurrenceOf(w, intent)
            case None => None
            case Some(o) => Some(if o.status == Superseded then o else o.(status := AdmittedOnce))
  {
  }

  // A lease never blocks itself: right after an admission, the same question is
  // answered the same way.
  lemma RevalidateAfterAdmit(w: World, intent: Intent, ctx: Context, now: int)
    requires AdmitVerdict(w, intent, ctx, now).Allowed?
    ensures Revalidated(Admitted(w, intent, ctx, now), LeaseHandle(LeaseId(intent), intent), ctx, now)
         == AdmitVerdict(w, intent, ctx, now)
  {
    var after := Taken(w, intent, now);
    var agent := intent.agent;
    var asked := EnsuredUnknown(w.records, agent, now);
    SeenAfterAdmission(w, intent, now);
    TakenOccurrence(w, intent, now);
    hide SeenCapacity, Taken, EnsuredUnknown, OccurrenceOf;
    assert EnsuredUnknown(after.records, agent, now) == after.records;
    FewerLeasesNeverHurt(
      WorkInput(intent.source, intent.trigger, intent.weight, now, intent.forced), ctx,
      OccurrenceOf(w, intent), OccurrenceOf(after, intent),
      SeenCapacity(asked, agent, Owned(w, intent, now), now), SeenCapacity(after.records, agent, 1, now),
      intent.repairDepth);
  }

  // Every recheck of this lease id decides as a fresh request would.
  ghost predicate RechecksAsFresh(w: World, agent: Agent, leaseId: string, now: int) {
    forall intent: Intent, ctx: Context | intent.agent == agent ::
      Revalidated(w, LeaseHandle(leaseId, intent), ctx, now)
      == Decide(WithoutOwnTraces(w, agent, leaseId), intent, ctx, 0, now)
  }

  predicate RecheckSafe(w: World, agent: Agent, leaseId: string, now: int) {
    || leaseId in Live(w.records, agent, now)
    || |Live(w.records, agent, now)| != 1
    || ReadCapacity(w.records, agent, now).observation.state in {Exhausted, Constrained}
  }

  // With no last start, the gates tell numbers of leases apart only by whether there are
  // any, and not even that for an exhausted or constrained agent.
  lemma OnlyAnyLeaseMatters(
    input: WorkInput, ctx: Context, occurrence: Option<Occurrence>, f: CapacityFacts, g: CapacityFacts,
    repairDepth: Option<int>)
    requires f.observation == g.observation && f.lastStart.None? && g.lastStart.None?
    requires (f.activeLeases == 0 <==> g.activeLeases == 0)
          || f.observation.state == Exhausted || f.observation.state == Constrained
    ensures AdmitAutomationWork(input, ctx, occurrence, Some(f), repairDepth)
         == AdmitAutomationWork(input, ctx, occurrence, Some(g), repairDepth)
  {
  }

  // What the gates see on the recheck, and would see without the lease.
  lemma RecheckFacts(w: World, agent: Agent, leaseId: string, now: int)
    ensures
      var without := WithoutOwnTraces(w, agent, leaseId);
      var f := SeenCapacity(EnsuredUnknown(w.records, agent, now), agent, 1, now);
      var g := SeenCapacity(EnsuredUnknown(without.records, agent, now), agent, 0, now);
      var live := Live(w.records, agent, now);
      && f.observation == g.observation && f.lastStart.None? && g.lastStart.None?
      && f.activeLeases == (if live == {} then 0 else |live| - 1)
      && g.activeLeases == |live - {leaseId}|
      && (ValidRecord(w.records, agent).Some? ==>
            f.observation.state == ReadCapacity(w.records, agent, now).observation.state)
  {
    var without := WithoutOwnTraces(w, agent, leaseId);
    var live := Live(w.records, agent, now);
    LiveWhenAsked(w.records, agent, now, agent);
    LiveWhenAsked(without.records, agent, now, agent);
    assert Live(without.records, agent, now) == live - {leaseId};
    assert live != {} ==> |live| > 0;
  }

  lemma SafeRecheckIsFresh(w: World, intent: Intent, leaseId: string, ctx: Context, now: int)
    requires RecheckSafe(w, intent.agent, leaseId, now)
    ensures Revalidated(w, LeaseHandle(leaseId, intent), ctx, now)
         == Decide(WithoutOwnTraces(w, intent.agent, leaseId), intent, ctx, 0, now)
  {
    var agent := intent.agent;
    var without, live := WithoutOwnTraces(w, agent, leaseId), Live(w.records, agent, now);
    RecheckFacts(w, agent, leaseId, now);
    hide SeenCapacity, EnsuredUnknown, AdmitAutomationWork;
    if leaseId in live {
      assert |live - {leaseId}| == |live| - 1;
    } else {
      assert live - {leaseId} == live;
    }
    OnlyAnyLeaseMatters(
      WorkInput(intent.source, intent.trigger, intent.weight, now, intent.forced), ctx, OccurrenceOf(w, intent),
      SeenCapacity(EnsuredUnknown(w.records, agent, now), agent, 1, now),
      SeenCapacity(EnsuredUnknown(without.records, agent, now), agent, 0, now), intent.repairDepth);
  }

  // A request and a host on which only leases can stand in the way.
  function HeavyRequest(agent: Agent): Intent {
    Intent("x", LoopEngineering, Background, Heavy, agent, false, None, None)
  }

  function QuietHost(): Context {
    Context((t: Trigger, n: int) => QuietAllowed, (i: WorkInput) => ResourceAnswer(true, "", None), None, false)
  }

  lemma UnsafeRecheckDiffers(w: World, agent: Agent, leaseId: string, now: int)
    requires !RecheckSafe(w, agent, leaseId, now)
    ensures Revalidated(w, LeaseHandle(leaseId, HeavyRequest(agent)), QuietHost(), now).Allowed?
    ensures Decide(WithoutOwnTraces(w, agent, leaseId), HeavyRequest(agent), QuietHost(), 0, now).Denied?
  {
    RecheckFacts(w, agent, leaseId, now);
    var live := Live(w.records, agent, now);
    assert live - {leaseId} == live;
    hide SeenCapacity, EnsuredUnknown;
  }

  // Main result: a lease id is always rechecked as a fresh request, whoever asks on
  // whatever host, exactly when it is unexpired, or the number of unexpired leases is
  // not one, or capacity refuses unattended work anyway.
  lemma RecheckCondition(w: World, agent: Agent, leaseId: string, now: int)
    ensures RechecksAsFresh(w, agent, leaseId, now) <==> RecheckSafe(w, agent, leaseId, now)
  {
    hide Decide, RecheckSafe;
    if RecheckSafe(w, agent, leaseId, now) {
      forall intent: Intent, ctx: Context | intent.agent == agent
        ensures Revalidated(w, LeaseHandle(leaseId, intent), ctx, now)
             == Decide(WithoutOwnTraces(w, agent, leaseId), intent, ctx, 0, now)
      {
        SafeRecheckIsFresh(w, intent, leaseId, ctx, now);
      }
    } else {
      UnsafeRecheckDiffers(w, agent, leaseId, now);
      assert HeavyRequest(agent).agent == agent;
    }
  }

  // ---- When to ask again after an exhaustion -------------------------------------------

  // A refusal for exhaustion names a retry time, and that time lies ahead exactly as long
  // as the probe time of the recorded observation does, whatever was recorded.
  lemma ExhaustionRetryIsProbeTime(w: World, intent: Intent, ctx: Context, owned: nat, now: int)
    requires ValidRecord(w.records, intent.agent).Some?
    requires ReadCapacity(w.records, intent.agent, now).observation.state == Exhausted
    requires
      var input := WorkInput(intent.source, intent.trigger, intent.weight, now, intent.forced);
      forall gate :: gate in GATES[..5] ==> HostOpen(gate, input, ctx, OccurrenceOf(w, intent))
    ensures
      var verdict := Decide(w, intent, ctx, owned, now);
      var recorded := ValidRecord(w.records, intent.agent).value.observation;
      && verdict.Denied? && verdict.reason == "capacity-exhausted" && verdict.retryAt.Some?
      && (now < verdict.retryAt.value <==> now < recorded.nextProbeAt)
  {
    var input := WorkInput(intent.source, intent.trigger, intent.weight, now, intent.forced);
    FirstFiveOpen(input, ctx, OccurrenceOf(w, intent));
    ExhaustedRetryTime(ValidRecord(w.records, intent.agent).value.observation, now);
  }

  lemma FirstFiveOpen(input: WorkInput, ctx: Context, occurrence: Option<Occurrence>)
    requires forall gate :: gate in GATES[..5] ==> HostOpen(gate, input, ctx, occurrence)
    ensures HostOpen(OccurrenceGate, input, ctx, occurrence) && HostOpen(NotBeforeGate, input, ctx, occurrence)
    ensures HostOpen(BusyGate, input, ctx, occurrence) && HostOpen(ActivityGate, input, ctx, occurrence)
    ensures HostOpen(QuietGate, input, ctx, occurrence)
  {
    hide HostOpen;
    assert GATES[..5] == [OccurrenceGate, NotBeforeGate, BusyGate, ActivityGate, QuietGate];
  }
}
