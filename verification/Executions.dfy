// Admitted work over whole runs: it is admitted, by execute or by hand, runs while other
// things happen, and ends by returning or throwing or by being settled by hand.
module Executions {
  import opened Basics
  import opened Capacity
  import opened Admission
  import opened CapacityStore
  import opened Coordinator
  import opened AutomationRuns

  // Leaked: the operation returned but its settle predicate threw, so nothing was settled.
  datatype Phase = Running | Done | Leaked
  datatype Execution = Execution(intent: Intent, startedAt: int, phase: Phase)
  datatype State = State(world: World, execs: seq<Execution>, now: int)

  datatype Happening =
    | Begin(intent: Intent, ctx: Context)
    | End(k: nat, outcome: Outcome)
    | SettleByHand(k: nat, settleOccurrence: bool)
    | Meanwhile(event: Event)

  datatype At = At(at: int, what: Happening)

  function HandleOf(x: Execution): LeaseHandle {
    LeaseHandle(LeaseId(x.intent), x.intent)
  }

  predicate Unsettled(x: Execution) {
    x.phase != Done
  }

  // The request shares no (source, id) with an execution that is not settled.
  predicate Fresh(s: State, intent: Intent) {
    forall k :: 0 <= k < |s.execs| && Unsettled(s.execs[k]) ==>
      (s.execs[k].intent.source, s.execs[k].intent.id) != (intent.source, intent.id)
  }

  // The lease belongs to no unsettled execution.
  predicate NobodysLease(s: State, lease: LeaseHandle) {
    forall k :: 0 <= k < |s.execs| && Unsettled(s.execs[k]) && s.execs[k].intent.agent == lease.intent.agent ==>
      LeaseId(s.execs[k].intent) != lease.leaseId
  }

  // Meanwhile, admitting is beginning an execution, a lease that is settled once more is
  // nobody's, and a reconciliation knows the executions that are still under way.
  predicate Undisturbed(s: State, event: Event) {
    && !event.Admit?
    && (event.Settle? || event.Finish? ==> NobodysLease(s, event.lease))
    && (event.ReconcileLeases? ==>
          forall k :: 0 <= k < |s.execs| && Unsettled(s.execs[k]) && s.execs[k].intent.agent == event.agent ==>
            !event.inScope(LeaseId(s.execs[k].intent)) || LeaseId(s.execs[k].intent) in event.active)
  }

  predicate MayHappen(s: State, h: At) {
    && s.now <= h.at
    && match h.what
       case Begin(intent, _) => Fresh(s, intent)
       case End(k, _) => k < |s.execs| && s.execs[k].phase == Running
       case SettleByHand(k, _) => k < |s.execs| && Unsettled(s.execs[k])
       case Meanwhile(event) => Undisturbed(s, event)
  }

  function Next(s: State, h: At): State
    requires h.what.End? || h.what.SettleByHand? ==> h.what.k < |s.execs|
  {
    match h.what
    case Begin(intent, ctx) =>
      State(Admitted(s.world, intent, ctx, h.at),
            if AdmitVerdict(s.world, intent, ctx, h.at).Allowed? then s.execs + [Execution(intent, h.at, Running)]
            else s.execs,
            h.at)
    case End(k, outcome) =>
      State(Finished(s.world, HandleOf(s.execs[k]), outcome),
            s.execs[k := s.execs[k].(phase := if outcome == Returned(PredicateThrew) then Leaked else Done)],
            h.at)
    case SettleByHand(k, settleOccurrence) =>
      State(Settled(s.world, HandleOf(s.execs[k]), settleOccurrence), s.execs[k := s.execs[k].(phase := Done)], h.at)
    case Meanwhile(event) => State(Step(s.world, event, h.at), s.execs, h.at)
  }

  function LeasesOf(rs: Records, agent: Agent): map<string, Lease> {
    match ValidRecord(rs, agent) case None => map[] case Some(r) => r.leases
  }

  // The lease id belongs to an execution that is not settled, and that was admitted
  // exactly a lease time before `expiresAt`.
  ghost predicate HeldUntil(execs: seq<Execution>, agent: Agent, id: string, expiresAt: int) {
    exists k :: 0 <= k < |execs| && HoldsUntil(execs[k], agent, id, expiresAt)
  }

  predicate HoldsUntil(x: Execution, agent: Agent, id: string, expiresAt: int) {
    Unsettled(x) && x.intent.agent == agent && LeaseId(x.intent) == id && x.startedAt + LEASE_TTL_MS == expiresAt
  }

  ghost predicate Distinct(execs: seq<Execution>) {
    forall j, k :: 0 <= j < k < |execs| && Unsettled(execs[j]) && Unsettled(execs[k]) ==>
      (execs[j].intent.source, execs[j].intent.id) != (execs[k].intent.source, execs[k].intent.id)
  }

  // Every recorded lease belongs to an unsettled execution, and every such execution
  // younger than the lease time has its lease.
  ghost predicate Inv(s: State) {
    && Distinct(s.execs)
    && (forall agent, id :: id in LeasesOf(s.world.records, agent) ==>
          HeldUntil(s.execs, agent, id, LeasesOf(s.world.records, agent)[id].expiresAt))
    && (forall k :: 0 <= k < |s.execs| ==> HasItsLease(s, s.execs[k]))
  }

  predicate HasItsLease(s: State, x: Execution) {
    Unsettled(x) && s.now < x.startedAt + LEASE_TTL_MS ==>
      var leases := LeasesOf(s.world.records, x.intent.agent);
      LeaseId(x.intent) in leases && leases[LeaseId(x.intent)].expiresAt == x.startedAt + LEASE_TTL_MS
  }

  // Different unsettled executions hold different leases.
  lemma DistinctLeases(s: State, j: nat, k: nat)
    requires Distinct(s.execs) && j < |s.execs| && k < |s.execs| && j != k
    requires Unsettled(s.execs[j]) && Unsettled(s.execs[k])
    ensures LeaseId(s.execs[j].intent) != LeaseId(s.execs[k].intent)
  {
    var x, y := s.execs[j].intent, s.execs[k].intent;
    LeaseIdInjective(x.source, x.id, y.source, y.id);
    if j < k {
      assert (x.source, x.id) != (y.source, y.id);
    } else {
      assert (y.source, y.id) != (x.source, x.id);
    }
  }

  lemma FreshLeaseId(s: State, intent: Intent, agent: Agent)
    requires Inv(s)
    requires Fresh(s, intent)
    ensures LeaseId(intent) !in LeasesOf(s.world.records, agent)
  {
    var leases := LeasesOf(s.world.records, agent);
    if LeaseId(intent) in leases {
      var k :| 0 <= k < |s.execs| && HoldsUntil(s.execs[k], agent, LeaseId(intent), leases[LeaseId(intent)].expiresAt);
      LeaseIdInjective(intent.source, intent.id, s.execs[k].intent.source, s.execs[k].intent.id);
    }
  }

  // What an admission of a fresh lease id does to every agent's leases.
  lemma TakenLeases(w: World, intent: Intent, now: int, agent: Agent)
    requires LeaseId(intent) !in LeasesOf(w.records, intent.agent)
    ensures LeasesOf(Taken(w, intent, now).records, agent)
         == if agent == intent.agent
            then Unexpired(LeasesOf(w.records, agent), now)[LeaseId(intent) := Lease(now, now + LEASE_TTL_MS)]
            else LeasesOf(w.records, agent)
  {
  }

  lemma SettledLeases(w: World, lease: LeaseHandle, settle: bool, agent: Agent)
    ensures LeasesOf(Settled(w, lease, settle).records, agent)
         == if agent == lease.intent.agent then LeasesOf(w.records, agent) - {lease.leaseId}
            else LeasesOf(w.records, agent)
  {
  }

  // What a reconciliation or a settlement may remove.
  predicate Removes(event: Event, agent: Agent, id: string, lease: Lease, now: int) {
    || (event.ReconcileLeases? && event.agent == agent
        && (lease.expiresAt <= now || (event.inScope(id) && id !in event.active)))
    || ((event.Settle? || event.Finish?) && event.lease.intent.agent == agent && event.lease.leaseId == id)
  }

  ghost predicate OnlyRemoves(
    before: map<string, Lease>, after: map<string, Lease>, event: Event, agent: Agent, now: int)
  {
    && (forall id :: id in after ==> id in before && after[id] == before[id])
    && (forall id :: id in before && id !in after ==> Removes(event, agent, id, before[id], now))
  }

  lemma MeanwhileLeases(w: World, event: Event, now: int, agent: Agent)
    requires !event.Admit?
    ensures OnlyRemoves(LeasesOf(w.records, agent), LeasesOf(Step(w, event, now).records, agent), event, agent, now)
  {
    if event.Settle? || event.Finish? {
      SettlingLeases(w, event, now, agent);
    } else {
      OtherLeases(w, event, now, agent);
    }
  }

  lemma SettlingLeases(w: World, event: Event, now: int, agent: Agent)
    requires event.Settle? || event.Finish?
    ensures OnlyRemoves(LeasesOf(w.records, agent), LeasesOf(Step(w, event, now).records, agent), event, agent, now)
  {
    hide LeasesOf, Settled;
    SettledLeases(w, event.lease, true, agent);
    SettledLeases(w, event.lease, false, agent);
    if event.Settle? { SettledLeases(w, event.lease, event.settleOccurrence, agent); }
  }

  lemma OtherLeases(w: World, event: Event, now: int, agent: Agent)
    requires !event.Admit? && !event.Settle? && !event.Finish?
    ensures OnlyRemoves(LeasesOf(w.records, agent), LeasesOf(Step(w, event, now).records, agent), event, agent, now)
  {
  }

  function Started(s: State, intent: Intent, now: int): State {
    State(Taken(s.world, intent, now), s.execs + [Execution(intent, now, Running)], now)
  }

  lemma StartedLeaseIsHeld(s: State, intent: Intent, now: int, agent: Agent, id: string)
    requires Inv(s) && Fresh(s, intent)
    requires id in LeasesOf(Started(s, intent, now).world.records, agent)
    ensures HeldUntil(Started(s, intent, now).execs, agent, id,
                      LeasesOf(Started(s, intent, now).world.records, agent)[id].expiresAt)
  {
    var execs := s.execs + [Execution(intent, now, Running)];
    FreshLeaseId(s, intent, intent.agent);
    TakenLeases(s.world, intent, now, agent);
    if agent == intent.agent && id == LeaseId(intent) {
      assert HoldsUntil(execs[|s.execs|], agent, id, now + LEASE_TTL_MS);
    } else {
      var expiresAt := LeasesOf(s.world.records, agent)[id].expiresAt;
      var k :| 0 <= k < |s.execs| && HoldsUntil(s.execs[k], agent, id, expiresAt);
      assert HoldsUntil(execs[k], agent, id, expiresAt);
    }
  }

  lemma StartedHasItsLease(s: State, intent: Intent, now: int, k: nat)
    requires Inv(s) && Fresh(s, intent) && s.now <= now && k <= |s.execs|
    ensures HasItsLease(Started(s, intent, now), Started(s, intent, now).execs[k])
  {
    FreshLeaseId(s, intent, intent.agent);
    if k < |s.execs| {
      var x := s.execs[k];
      assert HasItsLease(s, x);
      TakenLeases(s.world, intent, now, x.intent.agent);
      LeaseIdInjective(intent.source, intent.id, x.intent.source, x.intent.id);
    } else {
      TakenLeases(s.world, intent, now, intent.agent);
    }
  }

  lemma StartedKeepsInv(s: State, intent: Intent, now: int)
    requires Inv(s) && Fresh(s, intent) && s.now <= now
    ensures Inv(Started(s, intent, now))
  {
    var s' := Started(s, intent, now);
    forall agent, id | id in LeasesOf(s'.world.records, agent)
      ensures HeldUntil(s'.execs, agent, id, LeasesOf(s'.world.records, agent)[id].expiresAt)
    {
      StartedLeaseIsHeld(s, intent, now, agent, id);
    }
    forall k | 0 <= k < |s'.execs| ensures HasItsLease(s', s'.execs[k]) {
      StartedHasItsLease(s, intent, now, k);
    }
  }

  lemma MeanwhileKeepsInv(s: State, event: Event, now: int)
    requires Inv(s) && s.now <= now && Undisturbed(s, event)
    ensures Inv(State(Step(s.world, event, now), s.execs, now))
  {
    hide Step, LeasesOf;
    var s' := State(Step(s.world, event, now), s.execs, now);
    forall agent, id | id in LeasesOf(s'.world.records, agent)
      ensures HeldUntil(s'.execs, agent, id, LeasesOf(s'.world.records, agent)[id].expiresAt)
    {
      MeanwhileLeases(s.world, event, now, agent);
    }
    forall k | 0 <= k < |s'.execs| ensures HasItsLease(s', s'.execs[k]) {
      assert HasItsLease(s, s.execs[k]);
      MeanwhileLeases(s.world, event, now, s.execs[k].intent.agent);
    }
  }

  lemma BeginKeepsInv(s: State, h: At)
    requires Inv(s) && MayHappen(s, h) && h.what.Begin?
    ensures Inv(Next(s, h))
  {
    if AdmitVerdict(s.world, h.what.intent, h.what.ctx, h.at).Allowed? {
      StartedKeepsInv(s, h.what.intent, h.at);
    } else {
      MeanwhileKeepsInv(s, Precheck(h.what.intent, h.what.ctx), h.at);
    }
  }

  // Ending an execution without settling it (its settle predicate threw).
  lemma LeakKeepsInv(s: State, e: nat, now: int)
    requires Inv(s) && s.now <= now && e < |s.execs| && Unsettled(s.execs[e])
    ensures Inv(State(s.world, s.execs[e := s.execs[e].(phase := Leaked)], now))
  {
    var s' := State(s.world, s.execs[e := s.execs[e].(phase := Leaked)], now);
    forall agent, id | id in LeasesOf(s.world.records, agent)
      ensures HeldUntil(s'.execs, agent, id, LeasesOf(s.world.records, agent)[id].expiresAt)
    {
      var expiresAt := LeasesOf(s.world.records, agent)[id].expiresAt;
      var k :| 0 <= k < |s.execs| && HoldsUntil(s.execs[k], agent, id, expiresAt);
      assert HoldsUntil(s'.execs[k], agent, id, expiresAt);
    }
    forall k | 0 <= k < |s'.execs| ensures HasItsLease(s', s'.execs[k]) {
      assert HasItsLease(s, s.execs[k]);
    }
  }

  lemma SettledKeepsInv(s: State, e: nat, settle: bool, now: int)
    requires Inv(s) && s.now <= now && e < |s.execs| && Unsettled(s.execs[e])
    ensures Inv(State(Settled(s.world, HandleOf(s.execs[e]), settle), s.execs[e := s.execs[e].(phase := Done)], now))
  {
    var x := s.execs[e];
    var s' := State(Settled(s.world, HandleOf(x), settle), s.execs[e := x.(phase := Done)], now);
    forall agent, id | id in LeasesOf(s'.world.records, agent)
      ensures HeldUntil(s'.execs, agent, id, LeasesOf(s'.world.records, agent)[id].expiresAt)
    {
      SettledLeases(s.world, HandleOf(x), settle, agent);
      var expiresAt := LeasesOf(s.world.records, agent)[id].expiresAt;
      var k :| 0 <= k < |s.execs| && HoldsUntil(s.execs[k], agent, id, expiresAt);
      assert HoldsUntil(s'.execs[k], agent, id, expiresAt);
    }
    forall k | 0 <= k < |s'.execs| ensures HasItsLease(s', s'.execs[k]) {
      assert HasItsLease(s, s.execs[k]);
      SettledLeases(s.world, HandleOf(x), settle, s.execs[k].intent.agent);
      if k != e && Unsettled(s.execs[k]) { DistinctLeases(s, k, e); }
    }
  }

  lemma EndKeepsInv(s: State, h: At)
    requires Inv(s) && MayHappen(s, h) && h.what.End?
    ensures Inv(Next(s, h))
  {
    match h.what.outcome
    case Threw => SettledKeepsInv(s, h.what.k, false, h.at);
    case Returned(NoPredicate) => SettledKeepsInv(s, h.what.k, true, h.at);
    case Returned(Says(settle)) => SettledKeepsInv(s, h.what.k, settle, h.at);
    case Returned(PredicateThrew) => LeakKeepsInv(s, h.what.k, h.at);
  }

  function RunAll(s: State, hs: seq<At>): State
    requires Legal(s, hs)
    decreases |hs|, 1
  {
    if hs == [] then s else Next(RunAll(s, hs[..|hs| - 1]), hs[|hs| - 1])
  }

  predicate Legal(s: State, hs: seq<At>)
    decreases |hs|, 0
  {
    hs == [] || (Legal(s, hs[..|hs| - 1]) && MayHappen(RunAll(s, hs[..|hs| - 1]), hs[|hs| - 1]))
  }

  lemma {:induction false} RunKeepsInv(s: State, hs: seq<At>)
    requires Inv(s) && Legal(s, hs)
    ensures Inv(RunAll(s, hs))
  {
    if hs != [] {
      var n := |hs| - 1;
      RunKeepsInv(s, hs[..n]);
      var before := RunAll(s, hs[..n]);
      match hs[n].what
      case Begin(_, _) => BeginKeepsInv(before, hs[n]);
      case End(_, _) => EndKeepsInv(before, hs[n]);
      case SettleByHand(k, settleOccurrence) => SettledKeepsInv(before, k, settleOccurrence, hs[n].at);
      case Meanwhile(event) => MeanwhileKeepsInv(before, event, hs[n].at);
    }
  }

  // The execution was admitted for this agent under this lease id less than a lease
  // time ago and has not been settled.
  predicate InFlight(x: Execution, agent: Agent, id: string, now: int) {
    Unsettled(x) && x.intent.agent == agent && LeaseId(x.intent) == id && now < x.startedAt + LEASE_TTL_MS
  }

  // Main result: starting from a world without leases, the unexpired leases are at all
  // times exactly the admitted, unsettled executions less than a day old, one lease each.
  lemma LeasesAreExecutionsInFlight(w: World, start: int, hs: seq<At>, agent: Agent, now: int)
    requires forall a :: LeasesOf(w.records, a) == map[]
    requires Legal(State(w, [], start), hs)
    requires RunAll(State(w, [], start), hs).now <= now
    ensures
      var s := RunAll(State(w, [], start), hs);
      && (forall id :: id in Live(s.world.records, agent, now) <==>
            exists k :: 0 <= k < |s.execs| && InFlight(s.execs[k], agent, id, now))
      && (forall j, k :: 0 <= j < k < |s.execs| && Unsettled(s.execs[j]) && Unsettled(s.execs[k]) ==>
            LeaseId(s.execs[j].intent) != LeaseId(s.execs[k].intent))
  {
    RunKeepsInv(State(w, [], start), hs);
    var s := RunAll(State(w, [], start), hs);
    forall id
      ensures id in Live(s.world.records, agent, now) <==>
              exists k :: 0 <= k < |s.execs| && InFlight(s.execs[k], agent, id, now)
    {
      if id in Live(s.world.records, agent, now) {
        var expiresAt := LeasesOf(s.world.records, agent)[id].expiresAt;
        var k :| 0 <= k < |s.execs| && HoldsUntil(s.execs[k], agent, id, expiresAt);
        assert InFlight(s.execs[k], agent, id, now);
      }
      if k :| 0 <= k < |s.execs| && InFlight(s.execs[k], agent, id, now) {
        assert HasItsLease(s, s.execs[k]);
      }
    }
    forall j, k | 0 <= j < k < |s.execs| && Unsettled(s.execs[j]) && Unsettled(s.execs[k])
      ensures LeaseId(s.execs[j].intent) != LeaseId(s.execs[k].intent)
    {
      DistinctLeases(s, j, k);
    }
  }

  // Heavy background or repair work under way and under a day old.
  predicate HeavyInFlight(x: Execution, agent: Agent, now: int) {
    InFlight(x, agent, LeaseId(x.intent), now) && SerializedIntent(x.intent)
  }

  ghost predicate OneHeavy(s: State, agent: Agent) {
    forall j, k :: 0 <= j < k < |s.execs| ==>
      !(HeavyInFlight(s.execs[j], agent, s.now) && HeavyInFlight(s.execs[k], agent, s.now))
  }

  // Heavy work is admitted only when none is in flight.
  lemma NoHeavyYet(s: State, intent: Intent, ctx: Context, now: int, j: nat)
    requires Inv(s) && Fresh(s, intent) && s.now <= now && j < |s.execs|
    requires AdmitVerdict(s.world, intent, ctx, now).Allowed? && SerializedIntent(intent)
    ensures !HeavyInFlight(s.execs[j], intent.agent, now)
  {
    AloneWhenSerialized(s.world, intent, ctx, now);
    var x := s.execs[j];
    assert HasItsLease(s, x);
    LeaseIdInjective(x.intent.source, x.intent.id, intent.source, intent.id);
    hide AdmitVerdict, Inv, LeaseIdOf;
    assert HeavyInFlight(x, intent.agent, now) ==> LeaseId(x.intent) in Live(s.world.records, intent.agent, now);
  }

  lemma NextKeepsOneHeavy(s: State, h: At, agent: Agent)
    requires Inv(s) && OneHeavy(s, agent) && MayHappen(s, h)
    ensures OneHeavy(Next(s, h), agent)
  {
    var s' := Next(s, h);
    hide Inv, AdmitVerdict, Fresh, Undisturbed, Finished, Settled, Step, Taken;
    forall j, k | 0 <= j < k < |s'.execs|
      ensures !(HeavyInFlight(s'.execs[j], agent, s'.now) && HeavyInFlight(s'.execs[k], agent, s'.now))
    {
      if k < |s.execs| {
        assert !(HeavyInFlight(s.execs[j], agent, s.now) && HeavyInFlight(s.execs[k], agent, s.now));
      } else if SerializedIntent(h.what.intent) && h.what.intent.agent == agent {
        NoHeavyYet(s, h.what.intent, h.what.ctx, h.at, j);
      }
    }
  }

  lemma {:induction false} RunKeepsOneHeavy(s: State, hs: seq<At>, agent: Agent)
    requires Inv(s) && OneHeavy(s, agent) && Legal(s, hs)
    ensures OneHeavy(RunAll(s, hs), agent)
  {
    hide Inv, OneHeavy, MayHappen, Next;
    if hs != [] {
      var n := |hs| - 1;
      RunKeepsOneHeavy(s, hs[..n], agent);
      RunKeepsInv(s, hs[..n]);
      NextKeepsOneHeavy(RunAll(s, hs[..n]), hs[n], agent);
    }
  }

  // Main result: starting from a world without leases, at most one heavy background or
  // repair execution of an agent is at any time unsettled and less than a day old.
  lemma HeavyExecutionsSerialized(w: World, start: int, hs: seq<At>, agent: Agent, now: int, j: nat, k: nat)
    requires forall a :: LeasesOf(w.records, a) == map[]
    requires Legal(State(w, [], start), hs)
    requires RunAll(State(w, [], start), hs).now <= now
    requires j < k < |RunAll(State(w, [], start), hs).execs|
    ensures
      var execs := RunAll(State(w, [], start), hs).execs;
      !(HeavyInFlight(execs[j], agent, now) && HeavyInFlight(execs[k], agent, now))
  {
    RunKeepsOneHeavy(State(w, [], start), hs, agent);
  }

  // Ending releases the execution's own lease and no other, except when the settle
  // predicate throws: then the lease stays until it expires.
  lemma EndReleasesOwnLease(w: World, x: Execution, outcome: Outcome, agent: Agent, now: int)
    requires LeaseId(x.intent) in Live(w.records, x.intent.agent, now)
    ensures Live(Finished(w, HandleOf(x), outcome).records, agent, now)
         == Live(w.records, agent, now)
          - (if agent == x.intent.agent && outcome != Returned(PredicateThrew) then {LeaseId(x.intent)} else {})
    ensures LeaseId(x.intent) in Live(Finished(w, HandleOf(x), outcome).records, x.intent.agent, now)
            <==> outcome == Returned(PredicateThrew)
  {
    LiveWithoutLease(w.records, x.intent.agent, LeaseId(x.intent), now, agent);
    LiveWithoutLease(w.records, x.intent.agent, LeaseId(x.intent), now, x.intent.agent);
  }

  // An occurrence is settled by an execution exactly when it is the execution's own,
  // known and not superseded, and the operation completed with its predicate agreeing.
  lemma EndSettlesOccurrence(w: World, x: Execution, outcome: Outcome, id: string)
    requires id in w.occurrences
    ensures
      var after := Finished(w, HandleOf(x), outcome).occurrences;
      && after.Keys == w.occurrences.Keys
      && after[id] ==
         if && x.intent.occurrenceId == Some(id) && w.occurrences[id].status != Superseded
            && outcome in {Returned(NoPredicate), Returned(Says(true))}
         then w.occurrences[id].(status := SettledOnce) else w.occurrences[id]
  {
  }
}
