// src/core/automation/capacity.ts: what usage telemetry says about an agent's
// capacity, and the capacity gate of an admission. Times are integer milliseconds,
// telemetry resets are integer seconds.
module Capacity {
  import opened Basics

  datatype Agent = Claude | Codex
  datatype Authentication = Subscription | UsageBased | UnknownAuthentication
  datatype CapacityState = Available | Constrained | Exhausted | Unknown
  datatype Trigger = Interactive | Operator | Background | Reconcile | ResourceRepair

  datatype Observation = Observation(
    agent: Agent,
    authentication: Authentication,
    state: CapacityState,
    fiveHourPct: Option<real>,
    weeklyPct: Option<real>,
    resetAt: Option<int>,
    observedAt: int,
    nextProbeAt: int,
    latestReason: string)

  // The capacity facts an admission looks at.
  datatype CapacityFacts = CapacityFacts(observation: Observation, activeLeases: nat, lastStart: Option<int>)

  // updatedAt is None for a number that is not finite.
  datatype Usage = Usage(
    fiveHourPct: Option<real>,
    fiveHourReset: Option<int>,
    sevenDayPct: Option<real>,
    sevenDayReset: Option<int>,
    updatedAt: Option<int>)

  datatype Telemetry = Telemetry(
    agent: Agent,
    authentication: Authentication,
    now: int,
    usage: Option<Usage>,
    constrainedPct: Option<real>,
    exhaustedPct: Option<real>)

  const MINUTE := 60_000
  const TELEMETRY_FRESH_MS := 15 * MINUTE
  const REPROBE_MS := 15 * MINUTE
  const EXHAUSTED_REPROBE_MS := 15 * MINUTE
  const UNKNOWN_START_INTERVAL_MS := 30 * MINUTE

  function FinitePercent(value: Option<real>): Option<real> {
    if value.Some? && 0.0 <= value.value <= 100.0 then value else None
  }

  function ExhaustedNextProbeAt(now: int, resetAt: Option<int>): (at: int)
    ensures at <= now + EXHAUSTED_REPROBE_MS
    ensures resetAt.Some? ==> at <= resetAt.value
    ensures at == now + EXHAUSTED_REPROBE_MS || (resetAt.Some? && at == resetAt.value)
  {
    match resetAt
    case None => now + EXHAUSTED_REPROBE_MS
    case Some(reset) => Min(reset, now + EXHAUSTED_REPROBE_MS)
  }

  // One rate-limit window: how much is used and when (in seconds) it resets.
  datatype Window = Window(pct: Option<real>, reset: Option<int>)

  function Windows(usage: Usage): seq<Window> {
    [Window(FinitePercent(usage.fiveHourPct), usage.fiveHourReset),
     Window(FinitePercent(usage.sevenDayPct), usage.sevenDayReset)]
  }

  predicate IsExhausted(w: Window, exhaustedPct: real) {
    w.pct.Some? && w.pct.value >= exhaustedPct
  }

  // The window has not been seen to reset by time t.
  predicate StillAhead(w: Window, t: int) {
    w.reset.None? || w.reset.value * 1000 > t
  }

  function ExhaustedPct(input: Telemetry): real {
    match input.exhaustedPct case None => 99.0 case Some(pct) => pct
  }

  function ConstrainedPct(input: Telemetry): real {
    match input.constrainedPct case None => 90.0 case Some(pct) => pct
  }

  predicate IsFresh(usage: Usage, now: int) {
    usage.updatedAt.Some? && now - usage.updatedAt.value * 1000 <= TELEMETRY_FRESH_MS
  }

  // The known reset times, in milliseconds, of the given windows.
  function KnownResets(ws: seq<Window>): (r: seq<int>)
    ensures |r| <= |ws|
    ensures |r| == |ws| <==> forall w :: w in ws ==> w.reset.Some?
    ensures forall x :: x in r ==> exists w :: w in ws && w.reset.Some? && x == w.reset.value * 1000
    ensures forall w :: w in ws && w.reset.Some? ==> w.reset.value * 1000 in r
  {
    if ws == [] then []
    else
      var rest := KnownResets(ws[1..]);
      assert forall w :: w in ws <==> w == ws[0] || w in ws[1..];
      if ws[0].reset.Some? then [ws[0].reset.value * 1000] + rest else rest
  }

  function MaxOf(s: seq<int>): (m: int)
    requires s != []
    ensures m in s && forall x :: x in s ==> x <= m
  {
    if |s| == 1 then s[0]
    else
      assert forall x :: x in s <==> x == s[0] || x in s[1..];
      Max(s[0], MaxOf(s[1..]))
  }

  function DeriveAgentCapacity(input: Telemetry): Observation {
    var unknown := (reason: string) =>
      Observation(input.agent, input.authentication, Unknown, None, None, None,
                  input.now, input.now + REPROBE_MS, reason);
    if input.usage.None? then unknown("usage-telemetry-unavailable")
    else
      var usage := input.usage.value;
      if !IsFresh(usage, input.now) then unknown("usage-telemetry-stale")
      else
        var fiveHourPct := FinitePercent(usage.fiveHourPct);
        var weeklyPct := FinitePercent(usage.sevenDayPct);
        if fiveHourPct.None? && weeklyPct.None? then unknown("usage-telemetry-incomplete")
        else
          var exhausted := Filter(w => IsExhausted(w, ExhaustedPct(input)), Windows(usage));
          var active := Filter(w => StillAhead(w, input.now), exhausted);
          if exhausted != [] && active == [] then unknown("usage-telemetry-reset-passed")
          else
            var state :=
              if active != [] then Exhausted
              else if exists w :: w in Windows(usage) && w.pct.Some? && w.pct.value >= ConstrainedPct(input)
              then Constrained else Available;
            var candidates := KnownResets(active);
            var resetAt :=
              if state == Exhausted && |candidates| == |active| then Some(MaxOf(candidates)) else None;
            var nextProbeAt :=
              if state == Exhausted && resetAt.Some? then ExhaustedNextProbeAt(input.now, resetAt)
              else input.now + REPROBE_MS;
            Observation(input.agent, input.authentication, state, fiveHourPct, weeklyPct, resetAt,
                        input.now, nextProbeAt,
                        match state
                        case Exhausted => "usage-exhausted"
                        case Constrained => "usage-constrained"
                        case _ => "usage-available")
  }

  // Some window of fresh telemetry is used up and has not reset by time t.
  ghost predicate SomeWindowExhaustedAt(input: Telemetry, t: int) {
    && input.usage.Some?
    && IsFresh(input.usage.value, input.now)
    && exists w :: w in Windows(input.usage.value) && IsExhausted(w, ExhaustedPct(input)) && StillAhead(w, t)
  }

  // The derived state is exhausted exactly when some window is, and the one stored
  // reset time is known exactly when every such window has a known reset.
  lemma DerivedExhaustion(input: Telemetry)
    ensures DeriveAgentCapacity(input).state == Exhausted <==> SomeWindowExhaustedAt(input, input.now)
    ensures DeriveAgentCapacity(input).resetAt.Some? <==>
              && SomeWindowExhaustedAt(input, input.now)
              && (forall w :: w in Windows(input.usage.value) ==>
                    IsExhausted(w, ExhaustedPct(input)) && StillAhead(w, input.now) ==> w.reset.Some?)
  {
    if input.usage.Some? && IsFresh(input.usage.value, input.now) {
      var usage := input.usage.value;
      assert Windows(usage)[0].pct == FinitePercent(usage.fiveHourPct);
      assert Windows(usage)[1].pct == FinitePercent(usage.sevenDayPct);
      var exhausted := Filter(w => IsExhausted(w, ExhaustedPct(input)), Windows(usage));
      var active := Filter(w => StillAhead(w, input.now), exhausted);
      FilterMembers(w => IsExhausted(w, ExhaustedPct(input)), Windows(usage));
      FilterMembers(w => StillAhead(w, input.now), exhausted);
      assert forall w :: w in active <==>
        w in Windows(usage) && IsExhausted(w, ExhaustedPct(input)) && StillAhead(w, input.now);
      assert active != [] <==> exists w :: w in active by {
        if active != [] { assert active[0] in active; }
      }
    }
  }

  // The telemetry numbers themselves: a percentage counts from 0 to 100, is used up from
  // its limit on, and its window has reset when the reset time is known and has come.
  ghost predicate Usable(pct: Option<real>) {
    pct.Some? && 0.0 <= pct.value && pct.value <= 100.0
  }

  ghost predicate UsedUp(pct: Option<real>, limit: Option<real>, default: real) {
    Usable(pct) && pct.value >= (if limit.Some? then limit.value else default)
  }

  ghost predicate ResetAhead(reset: Option<int>, t: int) {
    reset.Some? ==> reset.value * 1000 > t
  }

  // Some window is used up and not seen to reset by time t.
  ghost predicate ExhaustedBy(input: Telemetry, u: Usage, t: int) {
    || (UsedUp(u.fiveHourPct, input.exhaustedPct, 99.0) && ResetAhead(u.fiveHourReset, t))
    || (UsedUp(u.sevenDayPct, input.exhaustedPct, 99.0) && ResetAhead(u.sevenDayReset, t))
  }

  ghost predicate Recent(u: Usage, now: int) {
    u.updatedAt.Some? && now <= u.updatedAt.value * 1000 + 900_000
  }

  // The windows say the same as the numbers.
  lemma WindowsAreTheNumbers(input: Telemetry, u: Usage, t: int)
    requires input.usage == Some(u)
    ensures IsFresh(u, input.now) <==> Recent(u, input.now)
    ensures SomeWindowExhaustedAt(input, t) <==> Recent(u, input.now) && ExhaustedBy(input, u, t)
    ensures (exists w :: w in Windows(u) && IsExhausted(w, ExhaustedPct(input))) <==>
              UsedUp(u.fiveHourPct, input.exhaustedPct, 99.0) || UsedUp(u.sevenDayPct, input.exhaustedPct, 99.0)
    ensures (exists w :: w in Windows(u) && w.pct.Some? && w.pct.value >= ConstrainedPct(input)) <==>
              UsedUp(u.fiveHourPct, input.constrainedPct, 90.0) || UsedUp(u.sevenDayPct, input.constrainedPct, 90.0)
  {
    var ws := Windows(u);
    assert ws[0].pct == FinitePercent(u.fiveHourPct) && ws[1].pct == FinitePercent(u.sevenDayPct);
    assert ws[0] in ws && ws[1] in ws;
    assert forall w :: w in ws <==> w == ws[0] || w == ws[1];
  }

  // The state of every telemetry input, from its numbers: unknown without recent usable
  // ones or when every used-up window has already reset; otherwise the worst window
  // decides.
  lemma DerivedState(input: Telemetry)
    ensures input.usage.None? ==> DeriveAgentCapacity(input).state == Unknown
    ensures input.usage.Some? ==>
      var o, u := DeriveAgentCapacity(input), input.usage.value;
      var readable := Recent(u, input.now) && (Usable(u.fiveHourPct) || Usable(u.sevenDayPct));
      var usedUp := UsedUp(u.fiveHourPct, input.exhaustedPct, 99.0) || UsedUp(u.sevenDayPct, input.exhaustedPct, 99.0);
      var nearly :=
        UsedUp(u.fiveHourPct, input.constrainedPct, 90.0) || UsedUp(u.sevenDayPct, input.constrainedPct, 90.0);
      && (o.state == Exhausted <==> readable && ExhaustedBy(input, u, input.now))
      && (o.state == Constrained <==> readable && !usedUp && nearly)
      && (o.state == Available <==> readable && !usedUp && !nearly)
  {
    if input.usage.Some? && IsFresh(input.usage.value, input.now) {
      var usage := input.usage.value;
      var ws := Windows(usage);
      WindowsAreTheNumbers(input, usage, input.now);
      var exhausted := Filter(w => IsExhausted(w, ExhaustedPct(input)), ws);
      FilterMembers(w => IsExhausted(w, ExhaustedPct(input)), ws);
      assert exhausted != [] <==> exists w :: w in exhausted by {
        if exhausted != [] { assert exhausted[0] in exhausted; }
      }
      DerivedExhaustion(input);
    } else if input.usage.Some? {
      WindowsAreTheNumbers(input, input.usage.value, input.now);
    }
  }

  // The rest of what is derived. A known state carries the usable percentages, an unknown
  // one carries none; the probe is due in a quarter of an hour or at an earlier reset.
  lemma DerivedFields(input: Telemetry)
    ensures
      var o := DeriveAgentCapacity(input);
      && o.agent == input.agent && o.authentication == input.authentication && o.observedAt == input.now
      && o.nextProbeAt == (if o.resetAt.Some? && o.resetAt.value < input.now + 900_000 then o.resetAt.value
                           else input.now + 900_000)
      && (o.state == Unknown ==> o.fiveHourPct.None? && o.weeklyPct.None? && o.resetAt.None?)
      && (o.state != Unknown ==>
            && input.usage.Some?
            && o.fiveHourPct == (if Usable(input.usage.value.fiveHourPct) then input.usage.value.fiveHourPct else None)
            && o.weeklyPct == (if Usable(input.usage.value.sevenDayPct) then input.usage.value.sevenDayPct else None))
      && (o.state == Exhausted ==> o.latestReason == "usage-exhausted")
      && (o.state == Constrained ==> o.latestReason == "usage-constrained")
      && (o.state == Available ==> o.latestReason == "usage-available")
      && (o.state == Unknown ==>
            o.latestReason
            == if input.usage.None? then "usage-telemetry-unavailable"
               else if !Recent(input.usage.value, input.now) then "usage-telemetry-stale"
               else if !Usable(input.usage.value.fiveHourPct) && !Usable(input.usage.value.sevenDayPct)
               then "usage-telemetry-incomplete" else "usage-telemetry-reset-passed")
  {
    if input.usage.Some? { WindowsAreTheNumbers(input, input.usage.value, input.now); }
  }

  // The stored reset is the last one that a window still waits for, and is known exactly
  // when each of those is.
  lemma DerivedReset(input: Telemetry, w: Window)
    requires input.usage.Some? && w in Windows(input.usage.value)
    requires IsExhausted(w, ExhaustedPct(input)) && StillAhead(w, input.now)
    ensures DeriveAgentCapacity(input).resetAt.Some? ==>
              w.reset.Some? && w.reset.value * 1000 <= DeriveAgentCapacity(input).resetAt.value
    ensures DeriveAgentCapacity(input).resetAt.Some? ==>
              exists v :: v in Windows(input.usage.value) && IsExhausted(v, ExhaustedPct(input))
                          && v.reset.Some? && v.reset.value * 1000 == DeriveAgentCapacity(input).resetAt.value
  {
    var o, ws := DeriveAgentCapacity(input), Windows(input.usage.value);
    var exhausted := Filter(v => IsExhausted(v, ExhaustedPct(input)), ws);
    var active := Filter(v => StillAhead(v, input.now), exhausted);
    FilterMembers(v => IsExhausted(v, ExhaustedPct(input)), ws);
    FilterMembers(v => StillAhead(v, input.now), exhausted);
    if o.resetAt.Some? {
      assert w in active && o.resetAt.value in KnownResets(active);
    }
  }

  // Every derived probe time lies in the next quarter of an hour and never after a
  // known reset.
  lemma DerivedProbeTime(input: Telemetry)
    ensures input.now < DeriveAgentCapacity(input).nextProbeAt <= input.now + REPROBE_MS
    ensures DeriveAgentCapacity(input).resetAt.Some? ==>
              input.now < DeriveAgentCapacity(input).resetAt.value &&
              DeriveAgentCapacity(input).nextProbeAt <= DeriveAgentCapacity(input).resetAt.value
  {
    var out := DeriveAgentCapacity(input);
    if out.resetAt.Some? {
      var exhausted := Filter(w => IsExhausted(w, ExhaustedPct(input)), Windows(input.usage.value));
      var active := Filter(w => StillAhead(w, input.now), exhausted);
      var candidates := KnownResets(active);
      FilterMembers(w => StillAhead(w, input.now), exhausted);
      assert out.resetAt.value in candidates;
    }
  }

  datatype CapacityDecision = Allow(reason: string) | Deny(reason: string, retryAt: Option<int>)

  function DecideCapacityAdmission(
    now: int, state: CapacityState, resetAt: Option<int>, nextProbeAt: Option<int>, trigger: Trigger,
    activeLeases: nat, lastAutonomousStartAt: Option<int>, repairDepth: int): CapacityDecision
  {
    if state == Exhausted then
      Deny("capacity-exhausted",
           if nextProbeAt.Some? then nextProbeAt
           else if resetAt.None? then None
           else Some(ExhaustedNextProbeAt(now, resetAt)))
    else if trigger == Interactive || trigger == Operator then Allow("operator-work")
    else if state == Constrained then Deny("capacity-constrained", None)
    else if state == Available then Allow("capacity-available")
    else if repairDepth > 0 then Deny("capacity-unknown-repair-chain", Some(now + REPROBE_MS))
    else if activeLeases > 0 then Deny("capacity-unknown-active-lease", Some(now + REPROBE_MS))
    else if lastAutonomousStartAt.Some? && now - lastAutonomousStartAt.value < UNKNOWN_START_INTERVAL_MS then
      Deny("capacity-unknown-cooldown", Some(lastAutonomousStartAt.value + UNKNOWN_START_INTERVAL_MS))
    else Allow("capacity-unknown-conservative")
  }

  // The capacity decision, case by case.
  lemma CapacityDecisionTable(
    now: int, state: CapacityState, resetAt: Option<int>, nextProbeAt: Option<int>, trigger: Trigger,
    activeLeases: nat, lastStart: Option<int>, repairDepth: int)
    ensures
      var d := DecideCapacityAdmission(now, state, resetAt, nextProbeAt, trigger, activeLeases, lastStart, repairDepth);
      var owner := trigger == Interactive || trigger == Operator;
      var rested := lastStart.None? || lastStart.value + 1_800_000 <= now;
      && (d.Allow? <==>
            && state != Exhausted
            && (owner || state == Available || (state == Unknown && repairDepth <= 0 && activeLeases == 0 && rested)))
      && (state == Exhausted && nextProbeAt.Some? ==> d == Deny("capacity-exhausted", nextProbeAt))
      && (state == Exhausted && nextProbeAt.None? && resetAt.None? ==> d == Deny("capacity-exhausted", None))
      && (state == Exhausted && nextProbeAt.None? && resetAt.Some? ==>
            d == Deny("capacity-exhausted", Some(Min(resetAt.value, now + 900_000))))
      && (d.Allow? ==>
            d.reason == if owner then "operator-work"
                        else if state == Available then "capacity-available" else "capacity-unknown-conservative")
      && (d.Deny? && state == Constrained ==> d == Deny("capacity-constrained", None))
      && (d.Deny? && state == Unknown ==>
            d == if repairDepth > 0 then Deny("capacity-unknown-repair-chain", Some(now + 900_000))
                 else if activeLeases > 0 then Deny("capacity-unknown-active-lease", Some(now + 900_000))
                 else Deny("capacity-unknown-cooldown",
                           if lastStart.Some? then Some(lastStart.value + 1_800_000) else None))
  {
  }
}
