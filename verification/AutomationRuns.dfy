// Whole runs of the autonomous-work coordinator: any interleaving of requests,
// rechecks, settlements, reconciliations and observations, on any agents, under a
// clock that never goes back.
module AutomationRuns {
  import opened Basics
  import opened Capacity
  import opened Admission
  import opened CapacityStore
  import opened Coordinator
  import Journal

  datatype Event =
    | Precheck(intent: Intent, ctx: Context)
    | Admit(intent: Intent, ctx: Context)
    | Revalidate(lease: LeaseHandle, ctx: Context)
    | Settle(lease: LeaseHandle, settleOccurrence: bool)
    | Finish(lease: LeaseHandle, outcome: Outcome)
    | ReconcileLeases(agent: Agent, active: set<string>, inScope: string -> bool)
    | Observe(observation: Observation, source: Source)
    | LimitSignal(agent: Agent, notice: LimitNotice, source: Source)
    | SettleOccurrence(id: string)
    // the planner, the ledger and pruning change occurrences on their own
    | OccurrencesChange(occurrences: map<string, Occurrence>)

  datatype Stamped = Stamped(at: int, event: Event)
  type Trace = seq<Stamped>

  function Step(w: World, e: Event, now: int): World {
    match e
    case Precheck(intent, _) => Asked(w, intent.agent, now)
    case Admit(intent, ctx) => Admitted(w, intent, ctx, now)
    case Revalidate(lease, _) => Asked(w, lease.intent.agent, now)
    case Settle(lease, settleOccurrence) => Settled(w, lease, settleOccurrence)
    case Finish(lease, outcome) => Finished(w, lease, outcome)
    case ReconcileLeases(agent, active, inScope) => w.(records := Reconciled(w.records, agent, active, now, inScope))
    case Observe(o, _) => w.(records := WithObservation(w.records, o))
    case LimitSignal(agent, notice, _) => LimitSignalled(w, agent, notice, now)
    case SettleOccurrence(id) => w.(occurrences := WithStatus(w.occurrences, id, SettledOnce))
    case OccurrencesChange(occurrences) => w.(occurrences := occurrences)
  }

  // Which agent an event admits work for in world w, if any.
  predicate Admits(w: World, s: Stamped, agent: Agent) {
    && s.event.Admit?
    && s.event.intent.agent == agent
    && AdmitVerdict(w, s.event.intent, s.event.ctx, s.at).Allowed?
  }

  function Run(w: World, tr: Trace): World {
    if tr == [] then w
    else Step(Run(w, tr[..|tr| - 1]), tr[|tr| - 1].event, tr[|tr| - 1].at)
  }

  // The world just before event i.
  function Before(w: World, tr: Trace, i: nat): World
    requires i <= |tr|
  {
    Run(w, tr[..i])
  }

  ghost predicate ClockForward(tr: Trace) {
    forall i, j :: 0 <= i <= j < |tr| ==> tr[i].at <= tr[j].at
  }

  // ---- What one step does to the leases of an agent -----------------------------

  lemma StepLive(w: World, s: Stamped, agent: Agent)
    ensures Live(Step(w, s.event, s.at).records, agent, s.at)
         <= Live(w.records, agent, s.at) + (if Admits(w, s, agent) then {LeaseId(s.event.intent)} else {})
  {
    match s.event
    case Precheck(intent, _) => LiveWhenAsked(w.records, intent.agent, s.at, agent);
    case Admit(intent, ctx) => LiveAfterAdmission(w, intent, ctx, s.at, agent);
    case Revalidate(lease, _) => LiveWhenAsked(w.records, lease.intent.agent, s.at, agent);
    case Settle(lease, _) => LiveWithoutLease(w.records, lease.intent.agent, lease.leaseId, s.at, agent);
    case Finish(lease, _) => LiveWithoutLease(w.records, lease.intent.agent, lease.leaseId, s.at, agent);
    case ReconcileLeases(owner, active, inScope) => LiveReconciled(w.records, owner, active, s.at, inScope, agent);
    case Observe(o, _) => LiveWithObservation(w.records, o, s.at, agent);
    case LimitSignal(owner, notice, _) =>
      if notice.Notice? {
        LiveWithObservation(w.records, LimitObservation(w.records, owner, notice.resetAt, s.at), s.at, agent);
      }
    case SettleOccurrence(_) =>
    case OccurrencesChange(_) =>
  }

  // What each event does to the unexpired leases of an agent, exactly.
  lemma StepLeases(w: World, s: Stamped, agent: Agent, id: string)
    ensures
      var before := id in Live(w.records, agent, s.at);
      id in Live(Step(w, s.event, s.at).records, agent, s.at) <==>
        match s.event
        case Admit(intent, _) => before || (Admits(w, s, agent) && id == LeaseId(intent))
        case Settle(lease, _) => before && !(agent == lease.intent.agent && id == lease.leaseId)
        case Finish(lease, outcome) =>
          before && !(agent == lease.intent.agent && id == lease.leaseId && outcome != Returned(PredicateThrew))
        case ReconcileLeases(owner, active, inScope) => before && (agent == owner ==> !inScope(id) || id in active)
        case _ => before
  {
    match s.event
    case Precheck(intent, _) => LiveWhenAsked(w.records, intent.agent, s.at, agent);
    case Admit(intent, ctx) => LiveAfterAdmission(w, intent, ctx, s.at, agent);
    case Revalidate(lease, _) => LiveWhenAsked(w.records, lease.intent.agent, s.at, agent);
    case Settle(lease, _) => LiveWithoutLease(w.records, lease.intent.agent, lease.leaseId, s.at, agent);
    case Finish(lease, _) => LiveWithoutLease(w.records, lease.intent.agent, lease.leaseId, s.at, agent);
    case ReconcileLeases(owner, active, inScope) => LiveReconciled(w.records, owner, active, s.at, inScope, agent);
    case Observe(o, _) => LiveWithObservation(w.records, o, s.at, agent);
    case LimitSignal(owner, notice, _) =>
      if notice.Notice? {
        LiveWithObservation(w.records, LimitObservation(w.records, owner, notice.resetAt, s.at), s.at, agent);
      }
    case SettleOccurrence(_) =>
    case OccurrencesChange(_) =>
  }

  lemma LiveShrinks(rs: Records, agent: Agent, now: int, later: int)
    requires now <= later
    ensures Live(rs, agent, later) <= Live(rs, agent, now)
  {
  }

  // ---- Heavy autonomous work is serialised ---------------------------------------

  predicate SerializedIntent(intent: Intent) {
    ShouldSerialize(intent.weight, intent.trigger)
  }

  // The last admission that granted this lease was for heavy background or repair work.
  predicate LastGrantSerialized(w: World, tr: Trace, agent: Agent, id: string) {
    if tr == [] then false
    else
      var n := |tr| - 1;
      if Admits(Run(w, tr[..n]), tr[n], agent) && LeaseId(tr[n].event.intent) == id then
        SerializedIntent(tr[n].event.intent)
      else LastGrantSerialized(w, tr[..n], agent, id)
  }

  // Whenever heavy background or repair work is admitted, no other lease is unexpired.
  lemma HeavyAdmittedAlone(w: World, tr: Trace, i: nat, agent: Agent)
    requires i < |tr| && Admits(Before(w, tr, i), tr[i], agent) && SerializedIntent(tr[i].event.intent)
    ensures Live(Before(w, tr, i).records, agent, tr[i].at) <= {LeaseId(tr[i].event.intent)}
    ensures Live(Before(w, tr, i + 1).records, agent, tr[i].at) == {LeaseId(tr[i].event.intent)}
  {
    var before, intent := Before(w, tr, i), tr[i].event.intent;
    assert tr[..i + 1][..i] == tr[..i] && tr[..i + 1][i] == tr[i];
    AloneWhenSerialized(before, intent, tr[i].event.ctx, tr[i].at);
    LiveAfterAdmission(before, intent, tr[i].event.ctx, tr[i].at, agent);
  }

  lemma AloneWhenSerialized(w: World, intent: Intent, ctx: Context, now: int)
    requires AdmitVerdict(w, intent, ctx, now).Allowed? && SerializedIntent(intent)
    ensures Live(w.records, intent.agent, now) <= {LeaseId(intent)}
  {
    OnlyOwnedLeases(w, intent, now);
  }

  // If the gates saw no active lease, at most the requester's own one is unexpired.
  lemma OnlyOwnedLeases(w: World, intent: Intent, now: int)
    requires
      var asked := EnsuredUnknown(w.records, intent.agent, now);
      SeenCapacity(asked, intent.agent, Owned(w, intent, now), now).activeLeases == 0
    ensures Live(w.records, intent.agent, now) <= {LeaseId(intent)}
  {
    LiveWhenAsked(w.records, intent.agent, now, intent.agent);
    var live := Live(w.records, intent.agent, now);
    var others := live - {LeaseId(intent)};
    if LeaseId(intent) in live {
      assert live == others + {LeaseId(intent)};
      assert |live| == |others| + 1;
    } else {
      assert others == live;
    }
    assert |others| == 0;
  }

  // The lease is unexpired and was last granted to heavy background or repair work.
  predicate HeldByHeavyWork(w: World, tr: Trace, agent: Agent, now: int, id: string) {
    id in Live(Run(w, tr).records, agent, now) && LastGrantSerialized(w, tr, agent, id)
  }

  // Main result: at any later time, at most one unexpired lease of an agent was last
  // granted to heavy background or repair work.
  lemma {:induction false} HeavyWorkSerialized(w: World, tr: Trace, agent: Agent, now: int, x: string, y: string)
    requires ClockForward(tr)
    requires tr != [] ==> tr[|tr| - 1].at <= now
    ensures HeldByHeavyWork(w, tr, agent, now, x) && HeldByHeavyWork(w, tr, agent, now, y) ==> x == y
  {
    if HeldByHeavyWork(w, tr, agent, now, x) && HeldByHeavyWork(w, tr, agent, now, y) {
      var n := |tr| - 1;
      var last, before := tr[n], Run(w, tr[..n]);
      LiveShrinks(Run(w, tr).records, agent, last.at, now);
      StepLive(before, last, agent);
      if Admits(before, last, agent) && LeaseId(last.event.intent) in {x, y} {
        // the lease just granted is heavy, so it is alone
        AloneWhenSerialized(before, last.event.intent, last.event.ctx, last.at);
      } else {
        HeavyWorkSerialized(w, tr[..n], agent, last.at, x, y);
      }
    }
  }

  // ---- Starts under unknown capacity are spaced out -------------------------------

  predicate ObservesAgent(e: Event, agent: Agent) {
    || (e.Observe? && e.observation.agent == agent)
    || (e.LimitSignal? && e.agent == agent && e.notice.Notice?)
  }

  // Only admissions move an agent's last start, and only observations change what is
  // known about its capacity.
  lemma StepRecord(w: World, s: Stamped, agent: Agent)
    requires ValidRecord(w.records, agent).Some?
    ensures
      var before := ValidRecord(w.records, agent).value;
      var after := ValidRecord(Step(w, s.event, s.at).records, agent);
      && after.Some?
      && after.value.lastStart == (if Admits(w, s, agent) then Some(s.at) else before.lastStart)
      && (!ObservesAgent(s.event, agent) ==> after.value.observation == before.observation)
  {
    match s.event
    case Admit(intent, ctx) =>
      if AdmitVerdict(w, intent, ctx, s.at).Allowed? { TakenRecord(w, intent, s.at, agent); }
    case Precheck(_, _) =>
    case Revalidate(_, _) =>
    case Settle(lease, settle) => SettledRecord(w, lease, settle, agent);
    case Finish(lease, outcome) =>
      SettledRecord(w, lease, true, agent);
      SettledRecord(w, lease, false, agent);
    case ReconcileLeases(_, _, _) =>
    case Observe(_, _) =>
    case LimitSignal(_, _, _) =>
    case SettleOccurrence(_) =>
    case OccurrencesChange(_) =>
  }

  lemma TakenRecord(w: World, intent: Intent, now: int, agent: Agent)
    ensures ValidRecord(Taken(w, intent, now).records, intent.agent).Some?
    ensures ValidRecord(Taken(w, intent, now).records, intent.agent).value.lastStart == Some(now)
    ensures agent != intent.agent ==>
              ValidRecord(Taken(w, intent, now).records, agent) == ValidRecord(w.records, agent)
    ensures ValidRecord(w.records, agent).Some? ==>
              && ValidRecord(Taken(w, intent, now).records, agent).Some?
              && ValidRecord(Taken(w, intent, now).records, agent).value.observation
                 == ValidRecord(w.records, agent).value.observation
  {
  }

  lemma SettledRecord(w: World, lease: LeaseHandle, settle: bool, agent: Agent)
    requires ValidRecord(w.records, agent).Some?
    ensures
      var before := ValidRecord(w.records, agent).value;
      var after := ValidRecord(Settled(w, lease, settle).records, agent);
      after.Some? && after.value.lastStart == before.lastStart && after.value.observation == before.observation
  {
  }

  // No operation loses or rewinds the last start: after an admission at event i, every
  // later world remembers a start no earlier than it.
  lemma {:induction false} LastStartRemembered(w: World, tr: Trace, i: nat, j: nat, agent: Agent)
    requires ClockForward(tr) && i < j <= |tr| && Admits(Before(w, tr, i), tr[i], agent)
    ensures
      var r := ValidRecord(Before(w, tr, j).records, agent);
      r.Some? && r.value.lastStart.Some? && tr[i].at <= r.value.lastStart.value
  {
    assert tr[..j][..j - 1] == tr[..j - 1] && tr[..j][j - 1] == tr[j - 1];
    var before := Before(w, tr, j - 1);
    if i == j - 1 {
      TakenRecord(before, tr[i].event.intent, tr[i].at, agent);
    } else {
      LastStartRemembered(w, tr, i, j - 1, agent);
      StepRecord(before, tr[j - 1], agent);
    }
  }

  // An unattended request admitted while capacity is unknown, by somebody who does not
  // already hold the lease.
  predicate UnknownStart(w: World, s: Stamped, agent: Agent) {
    && Admits(w, s, agent)
    && !IsOwnerTrigger(s.event.intent.trigger)
    && ReadCapacity(EnsuredUnknown(w.records, agent, s.at), agent, s.at).observation.state == Unknown
    && LeaseId(s.event.intent) !in Live(w.records, agent, s.at)
  }

  // Such a request is not a repair of a repair, finds nothing running, and comes at
  // least half an hour after every earlier admission for the agent.
  lemma UnknownStartIsConservative(w: World, tr: Trace, i: nat, j: nat, agent: Agent)
    requires ClockForward(tr) && j < |tr| && UnknownStart(Before(w, tr, j), tr[j], agent)
    ensures tr[j].event.intent.repairDepth.Some? ==> tr[j].event.intent.repairDepth.value <= 0
    ensures Live(Before(w, tr, j).records, agent, tr[j].at) == {}
    ensures i < j && Admits(Before(w, tr, i), tr[i], agent) ==>
              tr[i].at + UNKNOWN_START_INTERVAL_MS <= tr[j].at
  {
    var before := Before(w, tr, j);
    OnlyOwnedLeases(before, tr[j].event.intent, tr[j].at);
    if i < j && Admits(Before(w, tr, i), tr[i], agent) {
      LastStartRemembered(w, tr, i, j, agent);
    }
  }

  // The times of an agent's unknown-capacity starts, in order.
  function UnknownStartTimes(w: World, tr: Trace, agent: Agent): seq<int> {
    if tr == [] then []
    else
      var n := |tr| - 1;
      UnknownStartTimes(w, tr[..n], agent)
      + if UnknownStart(Run(w, tr[..n]), tr[n], agent) then [tr[n].at] else []
  }

  ghost predicate Spaced(times: seq<int>) {
    forall i, j :: 0 <= i < j < |times| ==> times[i] + UNKNOWN_START_INTERVAL_MS <= times[j]
  }

  lemma {:induction false} StartTimesComeFromStarts(w: World, tr: Trace, agent: Agent, t: int)
    requires t in UnknownStartTimes(w, tr, agent)
    ensures exists i :: 0 <= i < |tr| && UnknownStart(Before(w, tr, i), tr[i], agent) && tr[i].at == t
  {
    hide Run, UnknownStart;
    var n := |tr| - 1;
    if t in UnknownStartTimes(w, tr[..n], agent) {
      StartTimesComeFromStarts(w, tr[..n], agent, t);
      var i :| 0 <= i < n && UnknownStart(Before(w, tr[..n], i), tr[..n][i], agent) && tr[..n][i].at == t;
      assert tr[..n][..i] == tr[..i];
    } else {
      assert UnknownStart(Before(w, tr, n), tr[n], agent) && tr[n].at == t;
    }
  }

  lemma EarlierStartIsOlder(w: World, tr: Trace, agent: Agent, t: int)
    requires ClockForward(tr) && tr != [] && UnknownStart(Run(w, tr[..|tr| - 1]), tr[|tr| - 1], agent)
    requires t in UnknownStartTimes(w, tr[..|tr| - 1], agent)
    ensures t + UNKNOWN_START_INTERVAL_MS <= tr[|tr| - 1].at
  {
    hide Run, AdmitVerdict, ReadCapacity, Live, EnsuredUnknown;
    var n := |tr| - 1;
    StartTimesComeFromStarts(w, tr[..n], agent, t);
    var i :| 0 <= i < n && UnknownStart(Before(w, tr[..n], i), tr[..n][i], agent) && tr[..n][i].at == t;
    assert tr[..n][..i] == tr[..i];
    UnknownStartIsConservative(w, tr, i, n, agent);
  }

  lemma {:induction false} UnknownStartsAreSpaced(w: World, tr: Trace, agent: Agent)
    requires ClockForward(tr)
    ensures Spaced(UnknownStartTimes(w, tr, agent))
  {
    if tr != [] {
      var n := |tr| - 1;
      UnknownStartsAreSpaced(w, tr[..n], agent);
      if UnknownStart(Run(w, tr[..n]), tr[n], agent) {
        var times := UnknownStartTimes(w, tr[..n], agent);
        forall i | 0 <= i < |times| ensures times[i] + UNKNOWN_START_INTERVAL_MS <= tr[n].at {
          EarlierStartIsOlder(w, tr, agent, times[i]);
        }
        assert UnknownStartTimes(w, tr, agent) == times + [tr[n].at];
      }
    }
  }

  function CountIn(times: seq<int>, from: int, to: int): nat {
    if times == [] then 0
    else CountIn(times[..|times| - 1], from, to) + if from <= times[|times| - 1] <= to then 1 else 0
  }

  lemma {:induction false} CountStopsAtLast(times: seq<int>, from: int, cut: int, to: int)
    requires cut <= to && forall i :: 0 <= i < |times| ==> times[i] <= cut
    ensures CountIn(times, from, to) == CountIn(times, from, cut)
    ensures cut < from ==> CountIn(times, from, to) == 0
  {
    if times != [] { CountStopsAtLast(times[..|times| - 1], from, cut, to); }
  }

  lemma OneIntervalLess(from: int, cut: int, to: int)
    requires from <= cut && cut + UNKNOWN_START_INTERVAL_MS <= to
    ensures (cut - from) / UNKNOWN_START_INTERVAL_MS + 1 <= (to - from) / UNKNOWN_START_INTERVAL_MS
  {
    assert (cut - from + UNKNOWN_START_INTERVAL_MS) / UNKNOWN_START_INTERVAL_MS
        == (cut - from) / UNKNOWN_START_INTERVAL_MS + 1;
  }

  lemma {:induction false} SpacedTimesAreRateLimited(times: seq<int>, from: int, to: int)
    requires Spaced(times) && from <= to
    ensures CountIn(times, from, to) <= (to - from) / UNKNOWN_START_INTERVAL_MS + 1
  {
    if times != [] {
      var n := |times| - 1;
      if from <= times[n] <= to {
        var cut := times[n] - UNKNOWN_START_INTERVAL_MS;
        CountStopsAtLast(times[..n], from, cut, to);
        if from <= cut {
          SpacedTimesAreRateLimited(times[..n], from, cut);
          OneIntervalLess(from, cut, to);
        }
      } else {
        SpacedTimesAreRateLimited(times[..n], from, to);
      }
    }
  }

  // Main result: a window of length W holds at most W / 30min + 1 unattended starts
  // under unknown capacity.
  lemma UnknownStartsAreRateLimited(w: World, tr: Trace, agent: Agent, from: int, to: int)
    requires ClockForward(tr) && from <= to
    ensures CountIn(UnknownStartTimes(w, tr, agent), from, to) <= (to - from) / UNKNOWN_START_INTERVAL_MS + 1
  {
    UnknownStartsAreSpaced(w, tr, agent);
    SpacedTimesAreRateLimited(UnknownStartTimes(w, tr, agent), from, to);
  }

  // ---- A settled occurrence never runs again -----------------------------------------

  predicate ClosedOccurrence(w: World, id: string) {
    id in w.occurrences && (w.occurrences[id].status == SettledOnce || w.occurrences[id].status == Superseded)
  }

  lemma ClosedRefuses(w: World, intent: Intent, ctx: Context, owned: nat, now: int)
    requires intent.occurrenceId.Some? && ClosedOccurrence(w, intent.occurrenceId.value)
    ensures Decide(w, intent, ctx, owned, now).Denied?
  {
  }

  lemma StepKeepsClosed(w: World, s: Stamped, id: string)
    requires ClosedOccurrence(w, id) && !s.event.OccurrencesChange?
    ensures ClosedOccurrence(Step(w, s.event, s.at), id)
  {
    hide Decide;
    if s.event.Admit? && s.event.intent.occurrenceId == Some(id) {
      ClosedRefuses(w, s.event.intent, s.event.ctx, Owned(w, s.event.intent, s.at), s.at);
    }
  }

  lemma {:induction false} RunKeepsClosed(w: World, tr: Trace, id: string)
    requires ClosedOccurrence(w, id) && forall i :: 0 <= i < |tr| ==> !tr[i].event.OccurrencesChange?
    ensures ClosedOccurrence(Run(w, tr), id)
  {
    hide ClosedOccurrence;
    if tr != [] {
      RunKeepsClosed(w, tr[..|tr| - 1], id);
      StepKeepsClosed(Run(w, tr[..|tr| - 1]), tr[|tr| - 1], id);
    }
  }

  // Main result: once an occurrence is settled or superseded, no work for it is admitted
  // or revalidated in any run that leaves planning alone.
  lemma ClosedOccurrenceNeverRunsAgain(
    w: World, tr: Trace, id: string, intent: Intent, lease: LeaseHandle, ctx: Context, now: int)
    requires ClosedOccurrence(w, id) && forall i :: 0 <= i < |tr| ==> !tr[i].event.OccurrencesChange?
    requires intent.occurrenceId == Some(id) && lease.intent.occurrenceId == Some(id)
    ensures AdmitVerdict(Run(w, tr), intent, ctx, now).Denied?
    ensures Revalidated(Run(w, tr), lease, ctx, now).Denied?
  {
    RunKeepsClosed(w, tr, id);
    hide Run;
    ClosedRefuses(Run(w, tr), intent, ctx, Owned(Run(w, tr), intent, now), now);
    ClosedRefuses(Run(w, tr), lease.intent, ctx, 1, now);
  }

  // An admission marks its own occurrence as admitted and leaves every other alone; a
  // refusal marks none.
  lemma AdmitMarksOwnOccurrence(w: World, intent: Intent, ctx: Context, now: int, id: string)
    requires id in w.occurrences
    ensures
      var after := Admitted(w, intent, ctx, now).occurrences;
      && after.Keys == w.occurrences.Keys
      && after[id] ==
         if AdmitVerdict(w, intent, ctx, now).Allowed? && intent.occurrenceId == Some(id)
         then w.occurrences[id].(status := AdmittedOnce) else w.occurrences[id]
  {
    hide Decide;
    if intent.occurrenceId == Some(id) && ClosedOccurrence(w, id) {
      ClosedRefuses(w, intent, ctx, Owned(w, intent, now), now);
    }
  }

  // What each event does to a known occurrence, exactly: an admission marks its own, a
  // settlement settles its own, and none of them touches a superseded one.
  lemma StepOccurrence(w: World, s: Stamped, id: string)
    requires id in w.occurrences && !s.event.OccurrencesChange?
    ensures
      var before, after := w.occurrences[id], Step(w, s.event, s.at).occurrences;
      && after.Keys == w.occurrences.Keys
      && after[id] ==
         match s.event
         case Admit(intent, _) =>
           if Admits(w, s, intent.agent) && intent.occurrenceId == Some(id)
           then before.(status := AdmittedOnce) else before
         case Settle(lease, settle) =>
           if settle && lease.intent.occurrenceId == Some(id) && before.status != Superseded
           then before.(status := SettledOnce) else before
         case Finish(lease, outcome) =>
           if (outcome == Returned(NoPredicate) || outcome == Returned(Says(true)))
              && lease.intent.occurrenceId == Some(id) && before.status != Superseded
           then before.(status := SettledOnce) else before
         case SettleOccurrence(own) =>
           if own == id && before.status != Superseded then before.(status := SettledOnce) else before
         case _ => before
  {
    hide AdmitVerdict;
    if s.event.Admit? { AdmitMarksOwnOccurrence(w, s.event.intent, s.event.ctx, s.at, id); }
  }

  // ---- Exhaustion is a barrier -----------------------------------------------------

  lemma {:induction false} RunKeepsObservation(w: World, tr: Trace, agent: Agent)
    requires ValidRecord(w.records, agent).Some?
    requires forall i :: 0 <= i < |tr| ==> !ObservesAgent(tr[i].event, agent)
    ensures
      var after := ValidRecord(Run(w, tr).records, agent);
      after.Some? && after.value.observation == ValidRecord(w.records, agent).value.observation
  {
    if tr != [] {
      var n := |tr| - 1;
      RunKeepsObservation(w, tr[..n], agent);
      StepRecord(Run(w, tr[..n]), tr[n], agent);
    }
  }

  // What a limit signal leaves behind, however the run goes on without new observations.
  lemma LimitStays(w: World, agent: Agent, resetAt: Option<int>, source: Source, signalledAt: int, tr: Trace)
    requires forall i :: 0 <= i < |tr| ==> !ObservesAgent(tr[i].event, agent)
    ensures
      var r := ValidRecord(Run(Step(w, LimitSignal(agent, Notice(resetAt), source), signalledAt), tr).records, agent);
      r.Some? && r.value.observation.state == Exhausted && r.value.observation.resetAt == resetAt
  {
    var signalled := Step(w, LimitSignal(agent, Notice(resetAt), source), signalledAt);
    SignalRecorded(w, agent, resetAt, source, signalledAt);
    hide *;
    RunKeepsObservation(signalled, tr, agent);
  }

  lemma SignalRecorded(w: World, agent: Agent, resetAt: Option<int>, source: Source, at: int)
    ensures
      var r := ValidRecord(Step(w, LimitSignal(agent, Notice(resetAt), source), at).records, agent);
      r.Some? && r.value.observation.state == Exhausted && r.value.observation.resetAt == resetAt
  {
  }

  lemma ExhaustedRefusesAll(w: World, intent: Intent, ctx: Context, owned: nat, now: int)
    requires ValidRecord(w.records, intent.agent).Some?
    requires
      var o := ValidRecord(w.records, intent.agent).value.observation;
      o.state == Exhausted && (o.resetAt.Some? ==> now < o.resetAt.value)
    ensures Decide(w, intent, ctx, owned, now).Denied?
  {
    var facts := SeenCapacity(EnsuredUnknown(w.records, intent.agent, now), intent.agent, owned, now);
    assert facts.observation.state == Exhausted;
  }

  // The observation of the agent that was recorded last, whenever it was made.
  function LastRecorded(w: World, tr: Trace, agent: Agent): Option<Observation> {
    if tr == [] then None
    else
      var n := |tr| - 1;
      match tr[n].event
      case Observe(o, _) => if o.agent == agent then Some(o) else LastRecorded(w, tr[..n], agent)
      case LimitSignal(a, Notice(resetAt), _) =>
        if a == agent then Some(LimitObservation(Run(w, tr[..n]).records, agent, resetAt, tr[n].at))
        else LastRecorded(w, tr[..n], agent)
      case _ => LastRecorded(w, tr[..n], agent)
  }

  lemma {:induction false} LastRecordedStands(w: World, tr: Trace, agent: Agent)
    ensures
      var r := ValidRecord(Run(w, tr).records, agent);
      LastRecorded(w, tr, agent).Some? ==> r.Some? && r.value.observation == LastRecorded(w, tr, agent).value
  {
    if tr != [] {
      var n := |tr| - 1;
      var before := Run(w, tr[..n]);
      if ObservesAgent(tr[n].event, agent) {
        RecordingStands(before, tr[n], agent);
      } else if LastRecorded(w, tr[..n], agent).Some? {
        LastRecordedStands(w, tr[..n], agent);
        StepRecord(before, tr[n], agent);
      }
    }
  }

  lemma RecordingStands(w: World, s: Stamped, agent: Agent)
    requires ObservesAgent(s.event, agent)
    ensures
      var r := ValidRecord(Step(w, s.event, s.at).records, agent);
      r.Some? && r.value.observation
                 == if s.event.Observe? then s.event.observation
                    else LimitObservation(w.records, agent, s.event.notice.resetAt, s.at)
  {
  }

  // Nobody gets through for this agent: neither asking, nor prechecking, nor rechecking.
  ghost predicate AllRefused(w: World, agent: Agent, now: int) {
    forall intent: Intent, ctx: Context | intent.agent == agent ::
      && AdmitVerdict(w, intent, ctx, now).Denied?
      && Decide(w, intent, ctx, 0, now).Denied?
      && forall leaseId :: Revalidated(w, LeaseHandle(leaseId, intent), ctx, now).Denied?
  }

  ghost predicate NobodyAdmitted(w: World, agent: Agent, now: int) {
    forall intent: Intent, ctx: Context | intent.agent == agent :: AdmitVerdict(w, intent, ctx, now).Denied?
  }

  function OwnerRequest(agent: Agent): Intent {
    Intent("z", LoopEngineering, Operator, Light, agent, false, None, None)
  }

  lemma OwnerIsAdmitted(w: World, agent: Agent, now: int)
    requires ValidRecord(w.records, agent).Some?
    requires
      var o := ValidRecord(w.records, agent).value.observation;
      o.state != Exhausted || ResetPassed(o, now)
    ensures AdmitVerdict(w, OwnerRequest(agent), QuietHost(), now).Allowed?
  {
    hide Decide;
    OwnerPassesUnlessExhausted(w, OwnerRequest(agent), QuietHost(), 0, now);
    OwnerPassesUnlessExhausted(w, OwnerRequest(agent), QuietHost(), 1, now);
  }

  // Main result: in every run, whatever else happens, nobody is admitted for the agent
  // exactly while the observation recorded last is an exhaustion that is not over. Then
  // nothing passes a precheck or a recheck either; owner work is no exception.
  lemma ExhaustionIsABarrier(w: World, tr: Trace, agent: Agent, now: int)
    requires LastRecorded(w, tr, agent).Some?
    ensures
      var o := LastRecorded(w, tr, agent).value;
      && (NobodyAdmitted(Run(w, tr), agent, now) <==> o.state == Exhausted && !ResetPassed(o, now))
      && (o.state == Exhausted && !ResetPassed(o, now) ==> AllRefused(Run(w, tr), agent, now))
  {
    LastRecordedStands(w, tr, agent);
    var later, o := Run(w, tr), LastRecorded(w, tr, agent).value;
    hide Run, Decide, LastRecorded;
    if o.state == Exhausted && !ResetPassed(o, now) {
      forall intent: Intent, ctx: Context | intent.agent == agent
        ensures AdmitVerdict(later, intent, ctx, now).Denied? && Decide(later, intent, ctx, 0, now).Denied?
        ensures forall leaseId :: Revalidated(later, LeaseHandle(leaseId, intent), ctx, now).Denied?
      {
        ExhaustedRefusesAll(later, intent, ctx, 0, now);
        ExhaustedRefusesAll(later, intent, ctx, 1, now);
      }
    } else {
      OwnerIsAdmitted(later, agent, now);
      assert OwnerRequest(agent).agent == agent;
    }
  }

  // So a recorded limit holds until its reset, or for ever when that is unknown, as long as
  // nothing else is recorded for the agent.
  lemma LimitHoldsUntilNextRecord(
    w: World, agent: Agent, resetAt: Option<int>, source: Source, signalledAt: int, tr: Trace, now: int)
    requires forall i :: 0 <= i < |tr| ==> !ObservesAgent(tr[i].event, agent)
    requires resetAt.Some? ==> now < resetAt.value
    ensures AllRefused(Run(Step(w, LimitSignal(agent, Notice(resetAt), source), signalledAt), tr), agent, now)
  {
    LimitStays(w, agent, resetAt, source, signalledAt, tr);
    var later := Run(Step(w, LimitSignal(agent, Notice(resetAt), source), signalledAt), tr);
    hide Run, Step, Decide;
    forall intent: Intent, ctx: Context | intent.agent == agent
      ensures AdmitVerdict(later, intent, ctx, now).Denied? && Decide(later, intent, ctx, 0, now).Denied?
      ensures forall leaseId :: Revalidated(later, LeaseHandle(leaseId, intent), ctx, now).Denied?
    {
      ExhaustedRefusesAll(later, intent, ctx, 0, now);
      ExhaustedRefusesAll(later, intent, ctx, 1, now);
    }
  }

  lemma OwnerPassesUnlessExhausted(w: World, intent: Intent, ctx: Context, owned: nat, now: int)
    requires ValidRecord(w.records, intent.agent).Some?
    requires
      var o := ValidRecord(w.records, intent.agent).value.observation;
      o.state != Exhausted || ResetPassed(o, now)
    requires IsOwnerTrigger(intent.trigger) && NothingElseHolds(w, intent, ctx, now)
    ensures Decide(w, intent, ctx, owned, now).Allowed?
  {
    var facts := SeenCapacity(EnsuredUnknown(w.records, intent.agent, now), intent.agent, owned, now);
    assert facts.observation.state != Exhausted;
  }

  // The occurrence, the host and its owner leave the request alone.
  ghost predicate NothingElseHolds(w: World, intent: Intent, ctx: Context, now: int) {
    EveryOtherGateOpen(WorkInput(intent.source, intent.trigger, intent.weight, now, intent.forced), ctx,
                       OccurrenceOf(w, intent))
  }

  // The barrier ends exactly at the reset time: from then on, owner work that nothing
  // else holds back is admitted, prechecked and revalidated again.
  lemma BarrierLiftsAtReset(
    w: World, agent: Agent, reset: int, source: Source, signalledAt: int, tr: Trace, intent: Intent, leaseId: string,
    ctx: Context, now: int)
    requires forall i :: 0 <= i < |tr| ==> !ObservesAgent(tr[i].event, agent)
    requires intent.agent == agent && IsOwnerTrigger(intent.trigger)
    requires NothingElseHolds(Run(Step(w, LimitSignal(agent, Notice(Some(reset)), source), signalledAt), tr), intent,
                              ctx, now)
    ensures
      var later := Run(Step(w, LimitSignal(agent, Notice(Some(reset)), source), signalledAt), tr);
      && (AdmitVerdict(later, intent, ctx, now).Allowed? <==> reset <= now)
      && (Decide(later, intent, ctx, 0, now).Allowed? <==> reset <= now)
      && (Revalidated(later, LeaseHandle(leaseId, intent), ctx, now).Allowed? <==> reset <= now)
  {
    LimitStays(w, agent, Some(reset), source, signalledAt, tr);
    var later := Run(Step(w, LimitSignal(agent, Notice(Some(reset)), source), signalledAt), tr);
    hide Run, Step, NothingElseHolds, Decide;
    if now < reset {
      ExhaustedRefusesAll(later, intent, ctx, 0, now);
      ExhaustedRefusesAll(later, intent, ctx, 1, now);
    } else {
      OwnerPassesUnlessExhausted(later, intent, ctx, 0, now);
      OwnerPassesUnlessExhausted(later, intent, ctx, 1, now);
    }
  }

  // ---- Surprises, reached by runs ------------------------------------------------------

  const NOWHERE := World(map[], map[])

  function AvailableNow(now: int): Observation {
    Observation(Claude, Subscription, Available, None, None, None, now, now, "usage-available")
  }

  function LightRequest(): Intent {
    Intent("y", DailyTaskAudit, Background, Light, Claude, false, None, None)
  }

  // Heavy work is admitted, light work joins it, and a day after its admission the heavy
  // lease lapses.
  function LapsingRun(): Trace {
    [Stamped(1, Observe(AvailableNow(1), LoopEngineering)),
     Stamped(2, Admit(HeavyRequest(Claude), QuietHost())),
     Stamped(3, Admit(LightRequest(), QuietHost()))]
  }

  lemma RunStep(w: World, tr: Trace, s: Stamped)
    ensures Run(w, tr + [s]) == Step(Run(w, tr), s.event, s.at)
  {
    assert (tr + [s])[..|tr|] == tr;
  }

  // The worlds that run goes through.
  function KnownWorld(): World {
    World(map[Claude := Record(AvailableNow(1), map[], None)], map[])
  }

  function HeavyWorld(): World {
    var leases := map[LeaseId(HeavyRequest(Claude)) := Lease(2, 2 + LEASE_TTL_MS)];
    World(map[Claude := Record(AvailableNow(1), leases, Some(2))], map[])
  }

  function BothWorld(): World {
    World(map[Claude := Record(AvailableNow(1),
                               map[LeaseId(HeavyRequest(Claude)) := Lease(2, 2 + LEASE_TTL_MS),
                                   LeaseId(LightRequest()) := Lease(3, 3 + LEASE_TTL_MS)],
                               Some(3))],
          map[])
  }

  lemma HeavyIsAdmitted()
    ensures AdmitVerdict(KnownWorld(), HeavyRequest(Claude), QuietHost(), 2).Allowed?
    ensures Taken(KnownWorld(), HeavyRequest(Claude), 2) == HeavyWorld()
  {
    hide LeaseIdOf;
    assert Live(KnownWorld().records, Claude, 2) == {};
    assert Unexpired(map[], 2) == map[];
  }

  lemma LightJoins()
    ensures AdmitVerdict(HeavyWorld(), LightRequest(), QuietHost(), 3).Allowed?
    ensures Taken(HeavyWorld(), LightRequest(), 3) == BothWorld()
  {
    LeaseIdInjective(LoopEngineering, "x", DailyTaskAudit, "y");
    hide LeaseIdOf;
    LightIsAllowed();
    hide AdmitVerdict;
    var leases := HeavyWorld().records[Claude].leases;
    assert Unexpired(leases, 3) == leases;
  }

  lemma LightIsAllowed()
    ensures AdmitVerdict(HeavyWorld(), LightRequest(), QuietHost(), 3).Allowed?
  {
    hide LeaseIdOf, Live;
  }

  lemma LapsingRunWorlds()
    ensures Run(NOWHERE, LapsingRun()[..1]) == KnownWorld()
    ensures Run(NOWHERE, LapsingRun()) == BothWorld()
  {
    var tr := LapsingRun();
    assert Step(NOWHERE, tr[0].event, 1) == KnownWorld();
    HeavyIsAdmitted();
    LightJoins();
    hide AdmitVerdict, Taken, KnownWorld, HeavyWorld, BothWorld;
    assert Step(KnownWorld(), tr[1].event, 2) == HeavyWorld();
    assert Step(HeavyWorld(), tr[2].event, 3) == BothWorld();
    RunStep(NOWHERE, [], tr[0]);
    RunStep(NOWHERE, tr[..1], tr[1]);
    RunStep(NOWHERE, tr[..2], tr[2]);
    assert [] + [tr[0]] == tr[..1] && tr[..1] + [tr[1]] == tr[..2] && tr[..2] + [tr[2]] == tr;
  }

  // On the day after, only the light lease is left.
  lemma HeavyLeaseLapsed()
    ensures Live(BothWorld().records, Claude, 2 + LEASE_TTL_MS) == {LeaseId(LightRequest())}
    ensures ReadCapacity(BothWorld().records, Claude, 2 + LEASE_TTL_MS).observation.state == Available
    ensures LeaseId(HeavyRequest(Claude)) != LeaseId(LightRequest())
  {
    LeaseIdInjective(LoopEngineering, "x", DailyTaskAudit, "y");
    hide LeaseIdOf;
  }

  // A lapsed lease is still discounted: its holder is let through next to another running
  // lease, although a fresh request would be refused.
  lemma LapsedLeaseHidesAnother()
    ensures exists tr: Trace, i: nat, ctx: Context, now: int ::
      && ClockForward(tr) && i < |tr| && tr[|tr| - 1].at <= now && tr[i].event.Admit?
      && Admits(Before(NOWHERE, tr, i), tr[i], tr[i].event.intent.agent)
      && var intent := tr[i].event.intent;
         && Revalidated(Run(NOWHERE, tr), LeaseHandle(LeaseId(intent), intent), ctx, now).Allowed?
         && Decide(WithoutOwnTraces(Run(NOWHERE, tr), intent.agent, LeaseId(intent)), intent, ctx, 0, now).Denied?
  {
    var tr, now := LapsingRun(), 2 + LEASE_TTL_MS;
    HeavyIsAdmitted();
    LapsingRunWorlds();
    HeavyLeaseLapsed();
    hide Run, LeaseIdOf, Decide, AdmitVerdict, KnownWorld, HeavyWorld, BothWorld, Live, ReadCapacity;
    assert !RecheckSafe(BothWorld(), Claude, LeaseId(HeavyRequest(Claude)), now);
    UnsafeRecheckDiffers(BothWorld(), Claude, LeaseId(HeavyRequest(Claude)), now);
    assert Admits(Before(NOWHERE, tr, 1), tr[1], Claude);
  }

  // An agent found used up, with an unknown reset.
  function UsedUp(): Telemetry {
    Telemetry(Claude, Subscription, 1, Some(Usage(Some(100.0), None, None, None, Some(0))), None, None)
  }

  // The retry time of a refusal can lie in the past: the observation is not renewed, and
  // its probe time has come and gone.
  lemma RetryTimeGoesStale(now: int)
    requires 1 + REPROBE_MS < now
    ensures
      var w := Run(NOWHERE, [Stamped(1, Observe(DeriveAgentCapacity(UsedUp()), LoopEngineering))]);
      var verdict := Decide(w, HeavyRequest(Claude), QuietHost(), 0, now);
      && verdict.Denied? && verdict.reason == "capacity-exhausted"
      && verdict.retryAt == Some(1 + REPROBE_MS) && verdict.retryAt.value < now
  {
    var input := UsedUp();
    var o := DeriveAgentCapacity(input);
    var s := Stamped(1, Observe(o, LoopEngineering));
    RunStep(NOWHERE, [], s);
    assert [] + [s] == [s];
    assert Windows(input.usage.value)[0] == Window(Some(100.0), None);
    assert Windows(input.usage.value)[1] == Window(None, None);
    assert Windows(input.usage.value)[0] in Windows(input.usage.value);
    assert SomeWindowExhaustedAt(input, 1);
    DerivedExhaustion(input);
    assert o.state == Exhausted && o.resetAt.None? && o.nextProbeAt == 1 + REPROBE_MS;
    hide DeriveAgentCapacity, Run;
    assert ReadCapacity(map[Claude := Record(o, map[], None)], Claude, now).observation == o;
  }

  // An observation made before a limit was signalled, and recorded after it, lifts the
  // barrier: the older knowledge wins.
  lemma OlderObservationLiftsBarrier()
    ensures
      var tr := [Stamped(10, LimitSignal(Claude, Notice(None), LoopEngineering)),
                 Stamped(11, Observe(AvailableNow(5), LoopEngineering))];
      AdmitVerdict(Run(NOWHERE, tr), HeavyRequest(Claude), QuietHost(), 12).Allowed?
  {
    var limit := Stamped(10, LimitSignal(Claude, Notice(None), LoopEngineering));
    var older := Stamped(11, Observe(AvailableNow(5), LoopEngineering));
    RunStep(NOWHERE, [], limit);
    RunStep(NOWHERE, [limit], older);
    assert [] + [limit] == [limit] && [limit] + [older] == [limit, older];
    var w := Run(NOWHERE, [limit, older]);
    hide Run;
    assert w.records[Claude].leases == map[] && w.records[Claude].observation == AvailableNow(5);
    assert Live(w.records, Claude, 12) == {};
  }

  // An exhaustion observed at 500 whose reset is at 1000.
  function SoonOver(): Telemetry {
    Telemetry(Claude, Subscription, 500, Some(Usage(Some(100.0), Some(1), None, None, Some(0))), None, None)
  }

  // Recorded after its reset, it is reported as a change to exhausted that nobody reads.
  lemma LateRecordingMisleads()
    ensures
      var w := Run(NOWHERE, [Stamped(1, Observe(AvailableNow(1), LoopEngineering))]);
      var o := DeriveAgentCapacity(SoonOver());
      && TransitionOf(w.records, o).Some? && TransitionOf(w.records, o).value.to == Exhausted
      && ReadCapacity(WithObservation(w.records, o), Claude, 1500).observation.state == Unknown
      && !ReportsWhatReadersSee(w.records, o, 1500)
  {
    var s := Stamped(1, Observe(AvailableNow(1), LoopEngineering));
    RunStep(NOWHERE, [], s);
    assert [] + [s] == [s];
    SoonOverDerived();
    var o := DeriveAgentCapacity(SoonOver());
    hide DeriveAgentCapacity, Run, SoonOver;
    var rs := Run(NOWHERE, [s]).records;
    assert rs == map[Claude := Record(AvailableNow(1), map[], None)];
    TransitionIsWhatReadersSee(rs, o, 1500);
  }

  lemma SoonOverDerived()
    ensures
      var o := DeriveAgentCapacity(SoonOver());
      o.state == Exhausted && o.agent == Claude && o.observedAt == 500 && o.resetAt == Some(1000)
  {
    var input := SoonOver();
    var ws := Windows(input.usage.value);
    DerivedState(input);
    DerivedFields(input);
    DerivedExhaustion(input);
    assert ws[0] == Window(Some(100.0), Some(1)) && ws[1] == Window(None, None);
    assert forall w :: w in ws <==> w == ws[0] || w == ws[1];
    OnlyReset(input);
    hide DeriveAgentCapacity;
  }

  lemma OnlyReset(input: Telemetry)
    requires input == SoonOver()
    ensures DeriveAgentCapacity(input).resetAt == None || DeriveAgentCapacity(input).resetAt == Some(1000)
  {
    var ws := Windows(input.usage.value);
    var exhausted := Filter(w => IsExhausted(w, ExhaustedPct(input)), ws);
    var active := Filter(w => StillAhead(w, input.now), exhausted);
    FilterMembers(w => IsExhausted(w, ExhaustedPct(input)), ws);
    FilterMembers(w => StillAhead(w, input.now), exhausted);
    assert forall w :: w in ws <==> w == ws[0] || w == ws[1];
    assert forall w :: w in active ==> w.reset == Some(1);
    if DeriveAgentCapacity(input).resetAt.Some? {
      assert MaxOf(KnownResets(active)) in KnownResets(active);
    }
  }

  function OtherHeavyRequest(): Intent {
    Intent("w", LoopEngineering, Background, Heavy, Claude, false, None, None)
  }

  // The same request is admitted twice; the first execution ends, and other heavy work
  // is admitted while the second is under way.
  function OverlapRun(): Trace {
    var same := LeaseHandle(LeaseId(HeavyRequest(Claude)), HeavyRequest(Claude));
    [Stamped(1, Observe(AvailableNow(1), LoopEngineering)),
     Stamped(2, Admit(HeavyRequest(Claude), QuietHost())),
     Stamped(3, Admit(HeavyRequest(Claude), QuietHost())),
     Stamped(4, Finish(same, Returned(NoPredicate))),
     Stamped(5, Admit(OtherHeavyRequest(), QuietHost()))]
  }

  function AgainWorld(): World {
    var leases := map[LeaseId(HeavyRequest(Claude)) := Lease(2, 3 + LEASE_TTL_MS)];
    World(map[Claude := Record(AvailableNow(1), leases, Some(3))], map[])
  }

  function EndedWorld(): World {
    World(map[Claude := Record(AvailableNow(1), map[], Some(3))], map[])
  }

  lemma HeavyIsAdmittedAgain()
    ensures AdmitVerdict(HeavyWorld(), HeavyRequest(Claude), QuietHost(), 3).Allowed?
    ensures Taken(HeavyWorld(), HeavyRequest(Claude), 3) == AgainWorld()
  {
    hide LeaseIdOf;
    assert Live(HeavyWorld().records, Claude, 3) == {LeaseId(HeavyRequest(Claude))};
    TakenAgain();
    hide Taken;
  }

  lemma TakenAgain()
    ensures Taken(HeavyWorld(), HeavyRequest(Claude), 3) == AgainWorld()
  {
    hide LeaseIdOf;
    var leases, id := HeavyWorld().records[Claude].leases, LeaseId(HeavyRequest(Claude));
    assert leases[id := Lease(2, 3 + LEASE_TTL_MS)] == map[id := Lease(2, 3 + LEASE_TTL_MS)];
    assert Taken(HeavyWorld(), HeavyRequest(Claude), 3).records[Claude] == AgainWorld().records[Claude];
  }

  lemma FirstExecutionEnds()
    ensures Step(AgainWorld(), OverlapRun()[3].event, 4) == EndedWorld()
  {
    hide LeaseIdOf;
    assert AgainWorld().records[Claude].leases - {LeaseId(HeavyRequest(Claude))} == map[];
  }

  lemma OtherHeavyIsAdmitted()
    ensures Live(EndedWorld().records, Claude, 5) == {}
    ensures AdmitVerdict(EndedWorld(), OtherHeavyRequest(), QuietHost(), 5).Allowed?
  {
    hide LeaseIdOf;
    assert Live(EndedWorld().records, Claude, 5) == {};
  }

  lemma OverlapSteps()
    ensures Step(NOWHERE, OverlapRun()[0].event, 1) == KnownWorld()
    ensures Step(KnownWorld(), OverlapRun()[1].event, 2) == HeavyWorld()
    ensures Step(HeavyWorld(), OverlapRun()[2].event, 3) == AgainWorld()
  {
    HeavyIsAdmitted();
    HeavyIsAdmittedAgain();
    assert Step(NOWHERE, OverlapRun()[0].event, 1) == KnownWorld();
    hide AdmitVerdict, Taken, HeavyWorld, AgainWorld, LeaseIdOf;
  }

  lemma OverlapRunWorlds()
    ensures Run(NOWHERE, OverlapRun()[..1]) == KnownWorld() && Run(NOWHERE, OverlapRun()[..2]) == HeavyWorld()
    ensures Run(NOWHERE, OverlapRun()[..3]) == AgainWorld() && Run(NOWHERE, OverlapRun()[..4]) == EndedWorld()
  {
    var tr := OverlapRun();
    OverlapSteps();
    FirstExecutionEnds();
    hide Step, KnownWorld, HeavyWorld, AgainWorld, EndedWorld, LeaseIdOf;
    RunStep(NOWHERE, [], tr[0]);
    RunStep(NOWHERE, tr[..1], tr[1]);
    RunStep(NOWHERE, tr[..2], tr[2]);
    RunStep(NOWHERE, tr[..3], tr[3]);
    assert [] + [tr[0]] == tr[..1] && tr[..1] + [tr[1]] == tr[..2];
    assert tr[..2] + [tr[2]] == tr[..3] && tr[..3] + [tr[3]] == tr[..4];
  }

  // Overlapping executions of one (source, id) share a lease: both are admitted, the end
  // of the first takes the lease of the second, and other heavy work joins it.
  lemma OverlapLosesLease()
    ensures
      var tr := OverlapRun();
      && ClockForward(tr)
      && Admits(Before(NOWHERE, tr, 1), tr[1], Claude) && Admits(Before(NOWHERE, tr, 2), tr[2], Claude)
      && tr[3].event.Finish? && tr[3].event.lease.intent == tr[1].event.intent == tr[2].event.intent
      && Live(Before(NOWHERE, tr, 4).records, Claude, 5) == {}
      && Admits(Before(NOWHERE, tr, 4), tr[4], Claude)
      && SerializedIntent(tr[2].event.intent) && SerializedIntent(tr[4].event.intent)
  {
    OverlapRunWorlds();
    HeavyIsAdmitted();
    HeavyIsAdmittedAgain();
    OtherHeavyIsAdmitted();
    hide Run, AdmitVerdict, Live, LeaseIdOf;
  }

  // ---- What a run leaves in the journal --------------------------------------------------

  function Listed(entry: Option<Journal.Event>): seq<Journal.Event> {
    match entry case None => [] case Some(e) => [e]
  }

  // The entries a step writes.
  function Entries(w: World, s: Stamped): seq<Journal.Event> {
    match s.event
    case Precheck(intent, ctx) => Listed(DecisionEntry(intent, Decide(w, intent, ctx, 0, s.at), s.at))
    case Admit(intent, ctx) => [AdmissionEntry(intent, AdmitVerdict(w, intent, ctx, s.at), s.at)]
    case Revalidate(lease, ctx) => Listed(DecisionEntry(lease.intent, Revalidated(w, lease, ctx, s.at), s.at))
    case Settle(lease, _) => [SettlementEntry(lease.intent, s.at)]
    case Finish(lease, outcome) =>
      if outcome == Returned(PredicateThrew) then [] else [SettlementEntry(lease.intent, s.at)]
    case Observe(o, source) => Listed(TransitionEntry(w.records, o, source))
    case LimitSignal(agent, notice, source) => Listed(LimitEntry(w.records, agent, notice, source, s.at))
    case _ => []
  }

  function RunEntries(w: World, tr: Trace): seq<Journal.Event> {
    if tr == [] then []
    else RunEntries(w, tr[..|tr| - 1]) + Entries(Run(w, tr[..|tr| - 1]), tr[|tr| - 1])
  }

  lemma {:induction false} EntriesAreIncluded(w: World, tr: Trace, i: nat, e: Journal.Event)
    requires i < |tr| && e in Entries(Before(w, tr, i), tr[i])
    ensures e in RunEntries(w, tr)
  {
    hide Entries, Run;
    var n := |tr| - 1;
    if i < n {
      assert tr[..n][..i] == tr[..i];
      EntriesAreIncluded(w, tr[..n], i, e);
    }
  }

  // Main result: every admission of a run is in the journal. In any stream of events
  // offered to the journal, by this coordinator and by others, that contains the run's
  // entries, it is written under its fingerprint at most a quarter of an hour before it
  // happened, whatever the times of the stream; and without the separator in its texts the
  // entry agrees with the admission on everything but time and occurrence.
  lemma EveryAdmissionIsJournalled(w: World, tr: Trace, i: nat, agent: Agent, offered: seq<Journal.Event>)
    requires i < |tr| && Admits(Before(w, tr, i), tr[i], agent)
    requires forall e :: e in RunEntries(w, tr) ==> e in offered
    ensures
      var verdict := AdmitVerdict(Before(w, tr, i), tr[i].event.intent, tr[i].event.ctx, tr[i].at);
      var admission := AdmissionEntry(tr[i].event.intent, verdict, tr[i].at);
      var log := Journal.WrittenLog(offered);
      && admission.kind == Journal.AdmittedEvent
      && exists k :: 0 <= k < |log|
           && Journal.DedupeKey(log[k]) == Journal.DedupeKey(admission)
           && log[k].at <= tr[i].at < log[k].at + Journal.DEDUPE_MS
           && ('|' !in admission.intentId && '|' !in admission.reason ==>
                 Journal.FingerprintFields(log[k]) == Journal.FingerprintFields(admission))
  {
    var verdict := AdmitVerdict(Before(w, tr, i), tr[i].event.intent, tr[i].event.ctx, tr[i].at);
    var admission := AdmissionEntry(tr[i].event.intent, verdict, tr[i].at);
    hide AdmitVerdict, Run;
    assert admission in Entries(Before(w, tr, i), tr[i]);
    assert admission.at == tr[i].at;
    EntriesAreIncluded(w, tr, i, admission);
    var k := Journal.LoggedWithin(offered, admission);
    var entry := Journal.WrittenLog(offered)[k];
    if '|' !in admission.intentId && '|' !in admission.reason {
      Journal.FingerprintsDistinguish(admission, entry);
    }
  }

  // ---- Runs are what the coordinator does ----------------------------------------------------

  // The event as a call on the objects.
  method Perform(c: AutonomousWorkCoordinator, s: Stamped)
    requires c.Valid()
    modifies c`delivered, c.capacity, c.occurrences, c.journal
    ensures c.Valid() && c.State() == Step(old(c.State()), s.event, s.at)
    ensures c.journal.Value() == Offered(old(c.journal.Value()), Entries(old(c.State()), s))
  {
    hide Decide, AdmitVerdict, Taken, EnsuredUnknown, Journal.Appended, TransitionEntry, WithObservation;
    match s.event
    case Precheck(intent, ctx) => var _ := c.Precheck(intent, ctx, s.at);
    case Admit(intent, ctx) => var _ := c.Admit(intent, ctx, s.at);
    case Revalidate(lease, ctx) => var _ := c.Revalidate(lease, ctx, s.at);
    case Settle(lease, settleOccurrence) => c.Settle(lease, settleOccurrence, s.at);
    case Finish(lease, outcome) => var _ := c.FinishExecution(lease, outcome, s.at);
    case ReconcileLeases(agent, active, inScope) =>
      var _ := c.capacity.ReconcileActiveLeases(agent, active, s.at, inScope);
    case Observe(o, source) => c.RecordCapacityObservation(o, source);
    case LimitSignal(agent, notice, source) => var _ := c.RecordLimitSignal(agent, notice, source, s.at);
    case SettleOccurrence(id) => var _ := c.SettleOccurrence(id);
    case OccurrencesChange(occurrences) => c.occurrences.records := occurrences;
  }

  // What a journal becomes when the events are offered to it in order.
  function Offered(j: Journal.State, es: seq<Journal.Event>): Journal.State {
    if es == [] then j else Journal.Appended(Offered(j, es[..|es| - 1]), es[|es| - 1])
  }

  lemma {:induction false} OfferedInParts(j: Journal.State, a: seq<Journal.Event>, b: seq<Journal.Event>)
    ensures Offered(j, a + b) == Offered(Offered(j, a), b)
  {
    if b == [] {
      assert a + b == a;
    } else {
      var n := |b| - 1;
      assert (a + b)[..|a + b| - 1] == a + b[..n];
      OfferedInParts(j, a, b[..n]);
    }
  }

  lemma {:induction false} OfferedIsRunJournal(es: seq<Journal.Event>)
    ensures Offered(Journal.EMPTY, es) == Journal.RunJournal(es)
  {
    if es != [] { OfferedIsRunJournal(es[..|es| - 1]); }
  }

  // Main result: calling the coordinator event by event leads where the runs of the
  // theorems lead, and a journal that starts empty ends as the one of the run's entries.
  method PerformAll(c: AutonomousWorkCoordinator, tr: Trace)
    requires c.Valid()
    modifies c`delivered, c.capacity, c.occurrences, c.journal
    ensures c.Valid() && c.State() == Run(old(c.State()), tr)
    ensures old(c.journal.Value()) == Journal.EMPTY ==>
              c.journal.Value() == Journal.RunJournal(RunEntries(old(c.State()), tr))
  {
    ghost var w, j := c.State(), c.journal.Value();
    hide Step, Entries;
    var i := 0;
    while i < |tr|
      invariant 0 <= i <= |tr| && c.Valid() && c.State() == Run(w, tr[..i])
      invariant c.journal.Value() == Offered(j, RunEntries(w, tr[..i]))
    {
      Perform(c, tr[i]);
      assert tr[..i + 1][..i] == tr[..i] && tr[..i + 1][i] == tr[i];
      OfferedInParts(j, RunEntries(w, tr[..i]), Entries(Run(w, tr[..i]), tr[i]));
      i := i + 1;
    }
    assert tr[..i] == tr;
    OfferedIsRunJournal(RunEntries(w, tr));
  }
}
