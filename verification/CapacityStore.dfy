// src/core/automation/capacity-store.ts: the durable record kept per agent, its
// leases and its last autonomous start. The record file is a map of valid records.
module CapacityStore {
  import opened Basics
  import opened Capacity

  datatype Lease = Lease(acquiredAt: int, expiresAt: int)
  datatype Record = Record(observation: Observation, leases: map<string, Lease>, lastStart: Option<int>)
  type Records = map<Agent, Record>

  const LEASE_TTL_MS := 24 * 60 * MINUTE

  // A record filed under another agent's name is not a valid one.
  function ValidRecord(rs: Records, agent: Agent): Option<Record> {
    if agent in rs && rs[agent].observation.agent == agent then Some(rs[agent]) else None
  }

  // The lease ids of an agent that have not expired.
  function Live(rs: Records, agent: Agent, now: int): set<string> {
    match ValidRecord(rs, agent)
    case None => {}
    case Some(r) => set id | id in r.leases && r.leases[id].expiresAt > now
  }

  function Fallback(agent: Agent, reason: string): CapacityFacts {
    CapacityFacts(Observation(agent, UnknownAuthentication, Unknown, None, None, None, 0, 0, reason), 0, None)
  }

  function NormalizeObservation(o: Observation, now: int): Observation {
    if o.state != Exhausted || o.resetAt.None? then o
    else if o.resetAt.value <= now then
      o.(state := Unknown, resetAt := None, nextProbeAt := now, latestReason := "capacity-reset-passed")
    else o.(nextProbeAt := Min(o.nextProbeAt, ExhaustedNextProbeAt(now, o.resetAt)))
  }

  predicate ResetPassed(o: Observation, now: int) {
    o.state == Exhausted && o.resetAt.Some? && o.resetAt.value <= now
  }

  function ReadCapacity(rs: Records, agent: Agent, now: int): CapacityFacts {
    if agent !in rs then Fallback(agent, "capacity-state-absent")
    else if rs[agent].observation.agent != agent then Fallback(agent, "capacity-state-invalid")
    else CapacityFacts(NormalizeObservation(rs[agent].observation, now), |Live(rs, agent, now)|, rs[agent].lastStart)
  }

  function WithObservation(rs: Records, o: Observation): Records {
    match ValidRecord(rs, o.agent)
    case Some(r) => rs[o.agent := r.(observation := o)]
    case None => rs[o.agent := Record(o, map[], None)]
  }

  function Unexpired(leases: map<string, Lease>, now: int): map<string, Lease> {
    map id | id in leases && leases[id].expiresAt > now :: leases[id]
  }

  function WithLease(rs: Records, agent: Agent, id: string, now: int): Records {
    match ValidRecord(rs, agent)
    case None => rs
    case Some(r) =>
      var acquiredAt := if id in r.leases && r.leases[id].expiresAt > now then r.leases[id].acquiredAt else now;
      var kept := if id in r.leases then r.leases else Unexpired(r.leases, now);
      rs[agent := r.(leases := kept[id := Lease(acquiredAt, now + LEASE_TTL_MS)])]
  }

  function WithoutLease(rs: Records, agent: Agent, id: string): Records {
    match ValidRecord(rs, agent)
    case None => rs
    case Some(r) => rs[agent := r.(leases := r.leases - {id})]
  }

  function Reconciled(rs: Records, agent: Agent, active: set<string>, now: int, inScope: string -> bool): Records {
    match ValidRecord(rs, agent)
    case None => rs
    case Some(r) =>
      rs[agent := r.(leases := map id | id in r.leases && r.leases[id].expiresAt > now && (!inScope(id) || id in active)
                              :: r.leases[id])]
  }

  function WithStart(rs: Records, agent: Agent, now: int): Records {
    match ValidRecord(rs, agent)
    case None => rs
    case Some(r) => rs[agent := r.(lastStart := Some(now))]
  }

  function EnsuredUnknown(rs: Records, agent: Agent, now: int): Records {
    if ValidRecord(rs, agent).Some? then rs
    else WithObservation(rs, Observation(agent, UnknownAuthentication, Unknown, None, None, None, now, now,
                                         "capacity-state-absent"))
  }

  // An unknown agent becomes a record that reads as unknown since now, with nothing
  // running; every other agent, and a known one, stays as it is.
  lemma AskedIsUnknown(rs: Records, asked: Agent, now: int, agent: Agent)
    ensures
      var after := EnsuredUnknown(rs, asked, now);
      && (agent != asked || ValidRecord(rs, asked).Some? ==> ValidRecord(after, agent) == ValidRecord(rs, agent))
      && (ValidRecord(rs, asked).None? ==>
            ReadCapacity(after, asked, now)
            == CapacityFacts(Observation(asked, UnknownAuthentication, Unknown, None, None, None, now, now,
                                         "capacity-state-absent"), 0, None))
  {
    if ValidRecord(rs, asked).None? {
      assert Live(EnsuredUnknown(rs, asked, now), asked, now) == {};
    }
  }

  // What a lease looks like after it was taken, and what becomes of the others: taking
  // one anew drops those that have expired, refreshing one keeps them.
  lemma LeaseTaken(rs: Records, agent: Agent, id: string, now: int, other: string)
    requires ValidRecord(rs, agent).Some?
    ensures
      var before := ValidRecord(rs, agent).value.leases;
      && ValidRecord(WithLease(rs, agent, id, now), agent).Some?
      && var after := ValidRecord(WithLease(rs, agent, id, now), agent).value.leases;
         && id in after && after[id].expiresAt == now + 86_400_000
         && after[id].acquiredAt == (if id in before && before[id].expiresAt > now then before[id].acquiredAt else now)
         && (other != id ==>
               (other in after <==> other in before && (id in before || before[other].expiresAt > now)))
         && (other != id && other in after ==> after[other] == before[other])
  {
  }

  // What is read of a recorded observation: itself, unless it is an exhaustion. One that
  // is over reads as unknown, to be probed now; one that is not, with its probe no later
  // than its reset or a quarter of an hour from now.
  lemma WhatIsRead(o: Observation, now: int)
    ensures
      var seen := NormalizeObservation(o, now);
      && (o.state != Exhausted || o.resetAt.None? ==> seen == o)
      && (o.state == Exhausted && o.resetAt.Some? ==>
            && seen.agent == o.agent && seen.authentication == o.authentication && seen.observedAt == o.observedAt
            && seen.fiveHourPct == o.fiveHourPct && seen.weeklyPct == o.weeklyPct)
      && (o.state == Exhausted && o.resetAt.Some? && o.resetAt.value <= now ==>
            && seen.state == Unknown && seen.resetAt.None? && seen.nextProbeAt == now
            && seen.latestReason == "capacity-reset-passed")
      && (o.state == Exhausted && o.resetAt.Some? && now < o.resetAt.value ==>
            && seen.state == Exhausted && seen.resetAt == o.resetAt && seen.latestReason == o.latestReason
            && seen.nextProbeAt == Min(o.nextProbeAt, Min(o.resetAt.value, now + 900_000)))
  {
  }

  // What each operation does to the unexpired leases.
  lemma LiveWhenAsked(rs: Records, asked: Agent, now: int, agent: Agent)
    ensures ValidRecord(EnsuredUnknown(rs, asked, now), asked).Some?
    ensures Live(EnsuredUnknown(rs, asked, now), agent, now) == Live(rs, agent, now)
  {
  }

  lemma LiveWithLease(rs: Records, owner: Agent, id: string, now: int, agent: Agent)
    requires ValidRecord(rs, owner).Some?
    ensures ValidRecord(WithLease(rs, owner, id, now), owner).Some?
    ensures Live(WithStart(WithLease(rs, owner, id, now), owner, now), agent, now)
         == Live(rs, agent, now) + (if agent == owner then {id} else {})
  {
    var r := ValidRecord(rs, owner).value;
    var kept := if id in r.leases then r.leases else Unexpired(r.leases, now);
    assert forall x :: x in kept && kept[x].expiresAt > now <==> x in r.leases && r.leases[x].expiresAt > now;
  }

  lemma LiveWithoutLease(rs: Records, owner: Agent, id: string, now: int, agent: Agent)
    ensures Live(WithoutLease(rs, owner, id), agent, now)
         == Live(rs, agent, now) - (if agent == owner then {id} else {})
  {
  }

  lemma LiveReconciled(
    rs: Records, owner: Agent, active: set<string>, now: int, inScope: string -> bool, agent: Agent)
    ensures forall id :: id in Live(Reconciled(rs, owner, active, now, inScope), agent, now) <==>
              id in Live(rs, agent, now) && (agent == owner ==> !inScope(id) || id in active)
    ensures
      var r := ValidRecord(Reconciled(rs, owner, active, now, inScope), owner);
      r.Some? ==> forall id :: id in r.value.leases ==> r.value.leases[id].expiresAt > now
  {
  }

  lemma LiveWithObservation(rs: Records, o: Observation, now: int, agent: Agent)
    ensures Live(WithObservation(rs, o), agent, now) == Live(rs, agent, now)
  {
  }

  class AgentCapacityStore {
    var records: Records

    constructor ()
      ensures records == map[]
    {
      records := map[];
    }

    // Without a valid record the agent is unknown and nothing runs. With one, a reader
    // learns how many leases are unexpired, the last start, and the observation, which
    // has turned unknown exactly if it was an exhaustion whose reset has passed.
    method Read(agent: Agent, now: int) returns (facts: CapacityFacts)
      ensures facts == ReadCapacity(records, agent, now)
      ensures facts.activeLeases == |Live(records, agent, now)|
      ensures ValidRecord(records, agent).None? ==>
                facts.observation.state == Unknown && facts.observation.observedAt == 0 && facts.lastStart.None?
      ensures ValidRecord(records, agent).Some? ==>
                var r := ValidRecord(records, agent).value;
                && facts.lastStart == r.lastStart
                && (facts.observation.state
                    == if ResetPassed(r.observation, now) then Unknown else r.observation.state)
    {
      if agent !in records { return Fallback(agent, "capacity-state-absent"); }
      var r := records[agent];
      if r.observation.agent != agent { return Fallback(agent, "capacity-state-invalid"); }
      var unexpired := CountUnexpired(r.leases, now);
      return CapacityFacts(NormalizeObservation(r.observation, now), unexpired, r.lastStart);
    }

    method RecordObservation(o: Observation)
      modifies this
      ensures records == WithObservation(old(records), o)
    {
      match ValidRecord(records, o.agent) {
        case Some(r) => records := records[o.agent := Record(o, r.leases, r.lastStart)];
        case None => records := records[o.agent := Record(o, map[], None)];
      }
    }

    method AcquireLease(agent: Agent, id: string, now: int) returns (acquired: bool)
      modifies this
      ensures acquired <==> ValidRecord(old(records), agent).Some?
      ensures records == WithLease(old(records), agent, id, now)
    {
      match ValidRecord(records, agent) {
        case None => acquired := false;
        case Some(r) =>
          if id in r.leases {
            var current := r.leases[id];
            var acquiredAt := if current.expiresAt > now then current.acquiredAt else now;
            records := records[agent := r.(leases := r.leases[id := Lease(acquiredAt, now + LEASE_TTL_MS)])];
          } else {
            records := records[agent := r.(leases := Unexpired(r.leases, now)[id := Lease(now, now + LEASE_TTL_MS)])];
          }
          acquired := true;
      }
    }

    method HasLease(agent: Agent, id: string, now: int) returns (has: bool)
      ensures has <==> id in Live(records, agent, now)
    {
      var r := ValidRecord(records, agent);
      has := r.Some? && id in r.value.leases && r.value.leases[id].expiresAt > now;
    }

    method ReleaseLease(agent: Agent, id: string) returns (released: bool)
      modifies this
      ensures records == WithoutLease(old(records), agent, id)
      ensures released <==>
                ValidRecord(old(records), agent).Some? && id in ValidRecord(old(records), agent).value.leases
    {
      var r := ValidRecord(records, agent);
      if r.None? || id !in r.value.leases {
        if r.Some? {
          assert r.value.leases - {id} == r.value.leases;
          assert records == records[agent := r.value];
        }
        return false;
      }
      records := records[agent := r.value.(leases := r.value.leases - {id})];
      return true;
    }

    method ReconcileActiveLeases(agent: Agent, active: set<string>, now: int, inScope: string -> bool)
      returns (removed: nat)
      modifies this
      ensures records == Reconciled(old(records), agent, active, now, inScope)
      ensures removed == if ValidRecord(old(records), agent).None? then 0
                         else |old(records)[agent].leases| - |records[agent].leases|
    {
      var r := ValidRecord(records, agent);
      if r.None? { return 0; }
      var leases :=
        map id | id in r.value.leases && r.value.leases[id].expiresAt > now && (!inScope(id) || id in active)
        :: r.value.leases[id];
      SubmapSize(leases, r.value.leases);
      removed := |r.value.leases| - |leases|;
      if removed > 0 {
        records := records[agent := r.value.(leases := leases)];
      } else {
        assert records == records[agent := r.value];
      }
    }

    method RecordAutonomousStart(agent: Agent, now: int) returns (recorded: bool)
      modifies this
      ensures recorded <==> ValidRecord(old(records), agent).Some?
      ensures records == WithStart(old(records), agent, now)
    {
      var r := ValidRecord(records, agent);
      recorded := r.Some?;
      if r.Some? {
        records := records[agent := r.value.(lastStart := Some(now))];
      }
    }

    method EnsureUnknown(agent: Agent, now: int)
      modifies this
      ensures records == EnsuredUnknown(old(records), agent, now)
    {
      if ValidRecord(records, agent).None? {
        RecordObservation(Observation(agent, UnknownAuthentication, Unknown, None, None, None, now, now,
                                      "capacity-state-absent"));
      }
    }
  }

  // Counting the leases that pass the filter.
  method CountUnexpired(leases: map<string, Lease>, now: int) returns (count: nat)
    ensures count == |set id | id in leases && leases[id].expiresAt > now|
  {
    count := 0;
    var todo := leases.Keys;
    ghost var counted: set<string> := {};
    while todo != {}
      invariant todo <= leases.Keys && count == |counted|
      invariant forall id :: id in counted <==> id in leases && id !in todo && leases[id].expiresAt > now
      decreases todo
    {
      var id :| id in todo;
      if leases[id].expiresAt > now {
        count := count + 1;
        counted := counted + {id};
      }
      todo := todo - {id};
    }
    assert counted == set id | id in leases && leases[id].expiresAt > now;
  }

  // A map with some entries dropped is no larger, and as large only when nothing was dropped.
  lemma SubmapSize<K, V>(small: map<K, V>, large: map<K, V>)
    requires forall k :: k in small ==> k in large && small[k] == large[k]
    ensures |small| <= |large|
    ensures |small| == |large| ==> small == large
  {
    SubsetSize(small.Keys, large.Keys);
  }

  lemma SubsetSize<T>(small: set<T>, large: set<T>)
    requires small <= large
    ensures |small| <= |large|
    ensures |small| == |large| ==> small == large
  {
    assert large == small + (large - small);
    assert |large| == |small| + |large - small|;
  }

  // The single stored reset time answers, at every later read, exactly what the
  // telemetry windows would: exhausted as long as a used-up window has an unknown
  // reset or one still to come.
  lemma StoredResetRefinesWindows(input: Telemetry, t: int)
    requires input.now <= t
    requires DeriveAgentCapacity(input).state == Exhausted
    ensures NormalizeObservation(DeriveAgentCapacity(input), t).state == Exhausted <==> SomeWindowExhaustedAt(input, t)
    ensures NormalizeObservation(DeriveAgentCapacity(input), t).state in {Exhausted, Unknown}
  {
    var o := DeriveAgentCapacity(input);
    DerivedExhaustion(input);
    var ws := Windows(input.usage.value);
    var exhausted := Filter(w => IsExhausted(w, ExhaustedPct(input)), ws);
    var active := Filter(w => StillAhead(w, input.now), exhausted);
    FilterMembers(w => IsExhausted(w, ExhaustedPct(input)), ws);
    FilterMembers(w => StillAhead(w, input.now), exhausted);
    var candidates := KnownResets(active);
    if o.resetAt.Some? {
      assert o.resetAt.value in candidates;
      if o.resetAt.value > t {
        var w :| w in active && w.reset.Some? && o.resetAt.value == w.reset.value * 1000;
        assert w in ws && IsExhausted(w, ExhaustedPct(input)) && StillAhead(w, t);
      } else {
        forall w | w in ws && IsExhausted(w, ExhaustedPct(input)) ensures !StillAhead(w, t) {
          if StillAhead(w, input.now) {
            assert w in active && w.reset.Some?;
            assert w.reset.value * 1000 in candidates;
          }
        }
      }
    } else {
      var w :| w in ws && IsExhausted(w, ExhaustedPct(input)) && StillAhead(w, input.now) && w.reset.None?;
      assert StillAhead(w, t);
    }
  }

  // Reading may bring a probe time forward, but never across the present: what is read
  // lies ahead exactly as long as what was recorded does. A derived one is not moved.
  lemma ExhaustedRetryTime(o: Observation, t: int)
    requires NormalizeObservation(o, t).state == Exhausted
    ensures t < NormalizeObservation(o, t).nextProbeAt <==> t < o.nextProbeAt
  {
  }

  lemma DerivedRetryTime(input: Telemetry, t: int)
    requires input.now <= t
    requires NormalizeObservation(DeriveAgentCapacity(input), t).state == Exhausted
    ensures NormalizeObservation(DeriveAgentCapacity(input), t).nextProbeAt == DeriveAgentCapacity(input).nextProbeAt
  {
    DerivedProbeTime(input);
  }
}
