// src/core/agents/runner-base.ts: the per-session launch lock of one runner, as the
// interleaved steps of its callers. A caller joins the session's promise chain, waits
// for its predecessors, runs its body, and releases.
module LaunchLock {
  import opened Basics

  datatype Kind = FreshStart | ResumeStart | RestartContinue

  // What a caller does next.
  datatype Phase =
    | Waiting      // for the promise it found in the lock table
    | ToExit       // a restart first types the exit command
    | ToCheck      // whether the agent runs
    | ToClear      // stale shell input
    | ToLaunch     // type the launch command
    | ToAwait      // the agent's readiness
    | ToReturn     // the agent already runs
    | Finished

  // behind: the caller whose queued promise was in the lock table on joining;
  // settled: this caller's own queued promise has settled.
  datatype Caller = Caller(session: string, kind: Kind, behind: Option<nat>, phase: Phase, settled: bool)

  datatype Action = Exited | Checked(running: bool) | Cleared | Launched
  datatype Entry = Entry(session: string, who: Option<nat>, action: Action)

  // callers are numbered in the order they joined; log is what was done to the panes.
  datatype State = State(callers: seq<Caller>, locks: map<string, nat>, log: seq<Entry>)

  datatype Step =
    | Join(session: string, kind: Kind)
    | Enter(i: nat)
    | Exit(i: nat)
    | Check(i: nat, running: bool)
    | Clear(i: nat)
    | Launch(i: nat)
    | Release(i: nat, threw: bool)
    | SettleQueued(i: nat)
    | UnlockedExit(session: string)   // gracefulRestart and exit type it outside the lock

  const INITIAL := State([], map[], [])

  predicate InBody(phase: Phase) {
    phase != Waiting && phase != Finished
  }

  predicate PredecessorSettled(s: State, c: Caller) {
    match c.behind case None => true case Some(j) => j < |s.callers| && s.callers[j].settled
  }

  predicate Enabled(s: State, step: Step) {
    match step
    case Join(_, _) => true
    case UnlockedExit(_) => true
    case Enter(i) => i < |s.callers| && s.callers[i].phase == Waiting && PredecessorSettled(s, s.callers[i])
    case Exit(i) => i < |s.callers| && s.callers[i].phase == ToExit
    case Check(i, _) => i < |s.callers| && s.callers[i].phase == ToCheck
    case Clear(i) => i < |s.callers| && s.callers[i].phase == ToClear
    case Launch(i) => i < |s.callers| && s.callers[i].phase == ToLaunch
    // the body returns at its end, and may throw anywhere
    case Release(i, threw) =>
      i < |s.callers| && InBody(s.callers[i].phase) &&
      (threw || s.callers[i].phase == ToAwait || s.callers[i].phase == ToReturn)
    case SettleQueued(i) =>
      && i < |s.callers| && s.callers[i].phase == Finished && !s.callers[i].settled
      && PredecessorSettled(s, s.callers[i])
  }

  function Goto(s: State, i: nat, phase: Phase): State
    requires i < |s.callers|
  {
    s.(callers := s.callers[i := s.callers[i].(phase := phase)])
  }

  function Act(s: State, i: nat, action: Action): State
    requires i < |s.callers|
  {
    s.(log := s.log + [Entry(s.callers[i].session, Some(i), action)])
  }

  function Joined(s: State, session: string, kind: Kind): State {
    var behind := if session in s.locks then Some(s.locks[session]) else None;
    s.(callers := s.callers + [Caller(session, kind, behind, Waiting, false)],
       locks := s.locks[session := |s.callers|])
  }

  function Released(s: State, i: nat): State
    requires i < |s.callers|
  {
    var session := s.callers[i].session;
    Goto(s, i, Finished).(locks := if session in s.locks && s.locks[session] == i then s.locks - {session} else s.locks)
  }

  function Next(s: State, step: Step): State
    requires Enabled(s, step)
  {
    match step
    case Join(session, kind) => Joined(s, session, kind)
    case Enter(i) => Goto(s, i, if s.callers[i].kind == RestartContinue then ToExit else ToCheck)
    case Exit(i) => Act(Goto(s, i, ToCheck), i, Exited)
    case Check(i, running) => Act(Goto(s, i, if running then ToReturn else ToClear), i, Checked(running))
    case Clear(i) => Act(Goto(s, i, ToLaunch), i, Cleared)
    case Launch(i) => Act(Goto(s, i, ToAwait), i, Launched)
    case Release(i, _) => Released(s, i)
    case SettleQueued(i) => s.(callers := s.callers[i := s.callers[i].(settled := true)])
    case UnlockedExit(session) => s.(log := s.log + [Entry(session, None, Exited)])
  }

  predicate Legal(steps: seq<Step>)
    decreases |steps|, 0
  {
    steps == [] || (Legal(steps[..|steps| - 1]) && Enabled(Run(steps[..|steps| - 1]), steps[|steps| - 1]))
  }

  function Run(steps: seq<Step>): State
    requires Legal(steps)
    decreases |steps|, 1
  {
    if steps == [] then INITIAL else Next(Run(steps[..|steps| - 1]), steps[|steps| - 1])
  }

  // ---- The invariant --------------------------------------------------------------------------

  // Every caller of the session that joined before i has finished.
  ghost predicate AllBefore(s: State, i: nat, session: string) {
    forall j :: 0 <= j < i && j < |s.callers| && s.callers[j].session == session ==> s.callers[j].phase == Finished
  }

  // What a caller found in the table: the latest earlier caller of its session, unless
  // every earlier caller had finished by then.
  ghost predicate BehindLatest(s: State, i: nat)
    requires i < |s.callers|
  {
    match s.callers[i].behind
    case None => AllBefore(s, i, s.callers[i].session)
    case Some(j) =>
      && j < i && s.callers[j].session == s.callers[i].session
      && forall k :: j < k < i ==> s.callers[k].session != s.callers[i].session
  }

  ghost predicate ChainedAt(s: State, i: nat)
    requires i < |s.callers|
  {
    && BehindLatest(s, i)
    && (s.callers[i].settled ==> s.callers[i].phase == Finished && AllBefore(s, i, s.callers[i].session))
    && (s.callers[i].phase != Waiting ==> AllBefore(s, i, s.callers[i].session))
  }

  ghost predicate Chained(s: State) {
    forall i :: 0 <= i < |s.callers| ==> ChainedAt(s, i)
  }

  // The table names the session's last caller as long as it has not finished.
  ghost predicate TableRight(s: State) {
    && (forall session :: session in s.locks ==>
          var i := s.locks[session];
          && i < |s.callers| && s.callers[i].session == session && s.callers[i].phase != Finished
          && forall k :: i < k < |s.callers| ==> s.callers[k].session != session)
    && (forall i :: 0 <= i < |s.callers| && s.callers[i].phase != Finished ==> s.callers[i].session in s.locks)
  }

  // The caller of a locked entry has entered its body.
  ghost predicate EntryOwned(s: State, e: Entry) {
    e.who.Some? ==>
      && e.who.value < |s.callers|
      && s.callers[e.who.value].session == e.session
      && s.callers[e.who.value].phase != Waiting
  }

  predicate Ordered(a: Entry, b: Entry) {
    a.who.Some? && b.who.Some? && a.session == b.session ==> a.who.value <= b.who.value
  }

  // Under the lock, callers of a session act in the order they joined.
  ghost predicate LogSorted(s: State) {
    && (forall p :: 0 <= p < |s.log| ==> EntryOwned(s, s.log[p]))
    && (forall p, q :: 0 <= p < q < |s.log| ==> Ordered(s.log[p], s.log[q]))
  }

  ghost predicate FoundStopped(log: seq<Entry>, session: string, i: nat, before: nat) {
    exists p :: 0 <= p < before && p < |log| && log[p] == Entry(session, Some(i), Checked(false))
  }

  predicate AboutToLaunch(phase: Phase) {
    phase == ToClear || phase == ToLaunch
  }

  // Nobody types a launch command without having found the agent not running.
  ghost predicate CheckedFirst(s: State) {
    && (forall i :: 0 <= i < |s.callers| && AboutToLaunch(s.callers[i].phase) ==>
          FoundStopped(s.log, s.callers[i].session, i, |s.log|))
    && (forall q :: 0 <= q < |s.log| && s.log[q].action.Launched? ==>
          s.log[q].who.Some? && FoundStopped(s.log, s.log[q].session, s.log[q].who.value, q))
  }

  ghost predicate Inv(s: State) {
    Chained(s) && TableRight(s) && LogSorted(s) && CheckedFirst(s)
  }

  // ---- Each part of the invariant across a step ----------------------------------------------------

  // Callers keep their session and place; finished ones and settled promises stay so.
  predicate Ages(c: Caller, d: Caller) {
    && d.session == c.session && d.behind == c.behind
    && (c.phase == Finished ==> d.phase == Finished) && (c.settled ==> d.settled)
    && (c.phase != Waiting ==> d.phase != Waiting)
  }

  ghost predicate Advances(s: State, s': State) {
    |s.callers| <= |s'.callers| && forall k :: 0 <= k < |s.callers| ==> Ages(s.callers[k], s'.callers[k])
  }

  lemma AllBeforeStays(s: State, s': State, i: nat, session: string)
    requires Advances(s, s') && i <= |s.callers| && AllBefore(s, i, session)
    ensures AllBefore(s', i, session)
  {
    forall j | 0 <= j < i && s'.callers[j].session == session ensures s'.callers[j].phase == Finished {
      assert Ages(s.callers[j], s'.callers[j]);
    }
  }

  lemma BehindStays(s: State, s': State, i: nat)
    requires Advances(s, s') && i < |s.callers| && BehindLatest(s, i)
    ensures BehindLatest(s', i)
  {
    assert Ages(s.callers[i], s'.callers[i]);
    if s.callers[i].behind.None? {
      AllBeforeStays(s, s', i, s.callers[i].session);
    } else {
      var j := s.callers[i].behind.value;
      assert Ages(s.callers[j], s'.callers[j]);
      forall k | j < k < i ensures s'.callers[k].session != s'.callers[i].session {
        assert Ages(s.callers[k], s'.callers[k]);
      }
    }
  }

  // A step keeps the chain if whatever it newly enters or settles has no unfinished predecessor.
  lemma ChainStays(s: State, s': State)
    requires Chained(s) && Advances(s, s') && |s'.callers| == |s.callers|
    requires forall i :: 0 <= i < |s.callers| && s'.callers[i] != s.callers[i] ==>
               && AllBefore(s, i, s.callers[i].session)
               && (s'.callers[i].settled ==> s'.callers[i].phase == Finished)
    ensures Chained(s')
  {
    forall i | 0 <= i < |s'.callers| ensures ChainedAt(s', i) {
      assert ChainedAt(s, i) && Ages(s.callers[i], s'.callers[i]);
      BehindStays(s, s', i);
      if s'.callers[i] != s.callers[i] || s.callers[i].phase != Waiting {
        AllBeforeStays(s, s', i, s.callers[i].session);
      }
    }
  }

  // Changing one caller's phase or promise.
  lemma ChangedOneAdvances(s: State, s': State, i: nat)
    requires |s'.callers| == |s.callers| && i < |s.callers| && Ages(s.callers[i], s'.callers[i])
    requires forall k :: 0 <= k < |s.callers| && k != i ==> s'.callers[k] == s.callers[k]
    ensures Advances(s, s')
  {
  }

  lemma FoundStays(log: seq<Entry>, more: seq<Entry>, session: string, i: nat, before: nat)
    requires FoundStopped(log, session, i, before)
    ensures FoundStopped(log + more, session, i, before)
  {
    var p :| 0 <= p < before && p < |log| && log[p] == Entry(session, Some(i), Checked(false));
    assert (log + more)[p] == log[p];
  }

  // Steps that leave the log alone.
  lemma QuietLogStays(s: State, s': State)
    requires LogSorted(s) && CheckedFirst(s) && Advances(s, s') && s'.log == s.log
    requires forall i :: 0 <= i < |s'.callers| && AboutToLaunch(s'.callers[i].phase) ==>
               i < |s.callers| && s'.callers[i] == s.callers[i]
    ensures LogSorted(s') && CheckedFirst(s')
  {
    forall p | 0 <= p < |s.log| ensures EntryOwned(s', s.log[p]) {
      assert EntryOwned(s, s.log[p]);
      if s.log[p].who.Some? { assert Ages(s.callers[s.log[p].who.value], s'.callers[s.log[p].who.value]); }
    }
  }

  // The last caller of a session that has entered its body may append to the log.
  lemma AppendSorted(s: State, s': State, e: Entry)
    requires Chained(s) && LogSorted(s) && Advances(s, s') && s'.log == s.log + [e] && EntryOwned(s', e)
    requires e.who.Some? ==> e.who.value < |s.callers| && s.callers[e.who.value].phase != Finished
    ensures LogSorted(s')
  {
    forall p | 0 <= p < |s'.log| ensures EntryOwned(s', s'.log[p]) {
      if p < |s.log| {
        assert EntryOwned(s, s.log[p]);
        if s.log[p].who.Some? { assert Ages(s.callers[s.log[p].who.value], s'.callers[s.log[p].who.value]); }
      }
    }
    forall p, q | 0 <= p < q < |s'.log| ensures Ordered(s'.log[p], s'.log[q]) {
      if q < |s.log| {
        assert Ordered(s.log[p], s.log[q]);
      } else {
        assert EntryOwned(s, s.log[p]);
        if e.who.Some? { assert Ages(s.callers[e.who.value], s'.callers[e.who.value]); }
        if s.log[p].who.Some? { assert ChainedAt(s, s.log[p].who.value); }
      }
    }
  }

  lemma AppendChecked(s: State, s': State, e: Entry)
    requires CheckedFirst(s) && Advances(s, s') && |s'.callers| == |s.callers| && s'.log == s.log + [e]
    requires forall i :: 0 <= i < |s'.callers| && AboutToLaunch(s'.callers[i].phase) ==>
               AboutToLaunch(s.callers[i].phase) || e == Entry(s'.callers[i].session, Some(i), Checked(false))
    requires e.action.Launched? ==>
               e.who.Some? && e.who.value < |s.callers|
               && AboutToLaunch(s.callers[e.who.value].phase) && s.callers[e.who.value].session == e.session
    ensures CheckedFirst(s')
  {
    forall i | 0 <= i < |s'.callers| && AboutToLaunch(s'.callers[i].phase)
      ensures FoundStopped(s'.log, s'.callers[i].session, i, |s'.log|)
    {
      assert Ages(s.callers[i], s'.callers[i]);
      if AboutToLaunch(s.callers[i].phase) {
        FoundStays(s.log, [e], s.callers[i].session, i, |s.log|);
        var p :| 0 <= p < |s.log| && p < |s'.log| && s'.log[p] == Entry(s'.callers[i].session, Some(i), Checked(false));
      } else {
        assert s'.log[|s.log|] == e;
      }
    }
    forall q | 0 <= q < |s'.log| && s'.log[q].action.Launched?
      ensures s'.log[q].who.Some? && FoundStopped(s'.log, s'.log[q].session, s'.log[q].who.value, q)
    {
      FoundStays(s.log, [e], s'.log[q].session, s'.log[q].who.value, q);
    }
  }

  // ---- The invariant across each step ------------------------------------------------------------------

  lemma JoinKeepsInv(s: State, session: string, kind: Kind)
    requires Inv(s)
    ensures Inv(Joined(s, session, kind))
  {
    var s', n := Joined(s, session, kind), |s.callers|;
    assert forall k :: 0 <= k < n ==> s'.callers[k] == s.callers[k];
    assert Advances(s, s');
    JoinChained(s, s', session, kind);
    QuietLogStays(s, s');
    JoinTable(s, s', session, kind);
  }

  lemma JoinTable(s: State, s': State, session: string, kind: Kind)
    requires TableRight(s) && s' == Joined(s, session, kind)
    ensures TableRight(s')
  {
    var n := |s.callers|;
    assert forall k :: 0 <= k < n ==> s'.callers[k] == s.callers[k];
  }

  lemma JoinChained(s: State, s': State, session: string, kind: Kind)
    requires Chained(s) && TableRight(s) && s' == Joined(s, session, kind) && Advances(s, s')
    ensures Chained(s')
  {
    var n := |s.callers|;
    assert forall k :: 0 <= k < n ==> s'.callers[k] == s.callers[k];
    forall i | 0 <= i < |s'.callers| ensures ChainedAt(s', i) {
      if i < n {
        assert ChainedAt(s, i);
        BehindStays(s, s', i);
        if s.callers[i].phase != Waiting { AllBeforeStays(s, s', i, s.callers[i].session); }
      }
    }
  }

  // Every earlier caller of the session is done once the predecessor's promise settled.
  lemma PredecessorsDone(s: State, i: nat)
    requires Inv(s) && i < |s.callers| && PredecessorSettled(s, s.callers[i])
    ensures AllBefore(s, i, s.callers[i].session)
  {
    assert ChainedAt(s, i);
    if s.callers[i].behind.Some? {
      var j := s.callers[i].behind.value;
      assert ChainedAt(s, j);
    }
  }

  lemma PhaseKeepsTable(s: State, i: nat, phase: Phase)
    requires TableRight(s) && i < |s.callers| && s.callers[i].phase != Finished && phase != Finished
    ensures TableRight(Goto(s, i, phase))
  {
    var s' := Goto(s, i, phase);
    assert forall k :: 0 <= k < |s.callers| && k != i ==> s'.callers[k] == s.callers[k];
  }

  lemma ActKeepsInv(s: State, i: nat, phase: Phase, action: Action)
    requires Inv(s) && i < |s.callers| && InBody(s.callers[i].phase) && InBody(phase)
    requires action == Launched ==> s.callers[i].phase == ToLaunch
    requires AboutToLaunch(phase) ==> action == Checked(false) || s.callers[i].phase == ToClear
    ensures Inv(Act(Goto(s, i, phase), i, action))
  {
    var s' := Act(Goto(s, i, phase), i, action);
    assert forall k :: 0 <= k < |s.callers| && k != i ==> s'.callers[k] == s.callers[k];
    assert ChainedAt(s, i);
    ChangedOneAdvances(s, s', i);
    ChainStays(s, s');
    PhaseKeepsTable(s, i, phase);
    AppendSorted(s, s', Entry(s.callers[i].session, Some(i), action));
    AppendChecked(s, s', Entry(s.callers[i].session, Some(i), action));
  }

  lemma EnterKeepsInv(s: State, i: nat)
    requires Inv(s) && Enabled(s, Enter(i))
    ensures Inv(Next(s, Enter(i)))
  {
    var s' := Next(s, Enter(i));
    PredecessorsDone(s, i);
    assert ChainedAt(s, i);
    ChangedOneAdvances(s, s', i);
    ChainStays(s, s');
    PhaseKeepsTable(s, i, s'.callers[i].phase);
    QuietLogStays(s, s');
  }

  // If the entry goes, i was the session's last caller and all before it are done.
  lemma ReleaseKeepsTable(s: State, i: nat)
    requires Chained(s) && TableRight(s) && i < |s.callers| && InBody(s.callers[i].phase)
    ensures TableRight(Released(s, i))
  {
    var s' := Released(s, i);
    assert forall k :: 0 <= k < |s.callers| && k != i ==> s'.callers[k] == s.callers[k];
    assert ChainedAt(s, i);
  }

  lemma ReleaseKeepsInv(s: State, i: nat)
    requires Inv(s) && i < |s.callers| && InBody(s.callers[i].phase)
    ensures Inv(Released(s, i))
  {
    var s' := Released(s, i);
    assert ChainedAt(s, i);
    ChangedOneAdvances(s, s', i);
    ChainStays(s, s');
    ReleaseKeepsTable(s, i);
    QuietLogStays(s, s');
  }

  lemma SettleKeepsInv(s: State, i: nat)
    requires Inv(s) && Enabled(s, SettleQueued(i))
    ensures Inv(Next(s, SettleQueued(i)))
  {
    var s' := Next(s, SettleQueued(i));
    PredecessorsDone(s, i);
    ChangedOneAdvances(s, s', i);
    assert forall k :: 0 <= k < |s.callers| ==> ChainedAt(s, k);
    ChainStays(s, s');
    QuietLogStays(s, s');
    SettleKeepsTable(s, i);
  }

  lemma SettleKeepsTable(s: State, i: nat)
    requires TableRight(s) && i < |s.callers|
    ensures TableRight(s.(callers := s.callers[i := s.callers[i].(settled := true)]))
  {
    var s' := s.(callers := s.callers[i := s.callers[i].(settled := true)]);
    assert forall k :: 0 <= k < |s.callers| ==>
      s'.callers[k].session == s.callers[k].session && s'.callers[k].phase == s.callers[k].phase;
  }

  lemma UnlockedExitKeepsInv(s: State, session: string)
    requires Inv(s)
    ensures Inv(Next(s, UnlockedExit(session)))
  {
    var s' := Next(s, UnlockedExit(session));
    assert Advances(s, s');
    ChainStays(s, s');
    AppendSorted(s, s', Entry(session, None, Exited));
    AppendChecked(s, s', Entry(session, None, Exited));
  }

  lemma {:induction false} RunKeepsInv(steps: seq<Step>)
    requires Legal(steps)
    ensures Inv(Run(steps))
  {
    if steps != [] {
      var n := |steps| - 1;
      RunKeepsInv(steps[..n]);
      var s := Run(steps[..n]);
      match steps[n]
      case Join(session, kind) => JoinKeepsInv(s, session, kind);
      case Enter(i) => EnterKeepsInv(s, i);
      case Exit(i) => ActKeepsInv(s, i, ToCheck, Exited);
      case Check(i, running) => ActKeepsInv(s, i, if running then ToReturn else ToClear, Checked(running));
      case Clear(i) => ActKeepsInv(s, i, ToLaunch, Cleared);
      case Launch(i) => ActKeepsInv(s, i, ToAwait, Launched);
      case Release(i, _) => ReleaseKeepsInv(s, i);
      case SettleQueued(i) => SettleKeepsInv(s, i);
      case UnlockedExit(session) => UnlockedExitKeepsInv(s, session);
    }
  }

  // ---- Main results -----------------------------------------------------------------------------

  // Lock bodies of a session never overlap, and start in the order their callers joined:
  // when one has started, every earlier one has finished.
  lemma BodiesRunOneByOneInJoinOrder(steps: seq<Step>, i: nat, j: nat)
    requires Legal(steps) && i < j < |Run(steps).callers|
    requires Run(steps).callers[i].session == Run(steps).callers[j].session
    ensures Run(steps).callers[j].phase != Waiting ==> Run(steps).callers[i].phase == Finished
  {
    RunKeepsInv(steps);
    assert ChainedAt(Run(steps), j);
  }

  // The lock table holds an entry for a session exactly while some caller of it is
  // waiting or running, however the bodies end.
  lemma LockEntryGoneWithLastCaller(steps: seq<Step>, session: string)
    requires Legal(steps)
    ensures session in Run(steps).locks <==>
            exists i :: 0 <= i < |Run(steps).callers| && Run(steps).callers[i].session == session
                        && Run(steps).callers[i].phase != Finished
  {
    RunKeepsInv(steps);
  }

  // Between a caller's finding the agent not running and its own launch command, no
  // other caller does anything to that session under the lock; and every launch command
  // was preceded by such a finding.
  lemma CheckThenLaunchIsAtomic(steps: seq<Step>, q: nat)
    requires Legal(steps) && q < |Run(steps).log| && Run(steps).log[q].action == Launched
    ensures
      var log := Run(steps).log;
      exists p :: 0 <= p < q && log[p] == Entry(log[q].session, log[q].who, Checked(false))
        && forall r :: p <= r <= q && log[r].session == log[q].session && log[r].who.Some? ==> log[r].who == log[q].who
  {
    RunKeepsInv(steps);
    var s := Run(steps);
    var i := s.log[q].who.value;
    assert FoundStopped(s.log, s.log[q].session, i, q) && EntryOwned(s, s.log[q]);
    var p :| 0 <= p < q && p < |s.log| && s.log[p] == Entry(s.log[q].session, Some(i), Checked(false));
    forall r | p <= r <= q && s.log[r].session == s.log[q].session && s.log[r].who.Some?
      ensures s.log[r].who == s.log[q].who
    {
      assert r == p || Ordered(s.log[p], s.log[r]);
      assert r == q || Ordered(s.log[r], s.log[q]);
    }
  }

  // A step by a caller of this session other than joining.
  predicate Moves(s: State, step: Step, session: string) {
    && Enabled(s, step) && !step.Join? && !step.UnlockedExit? && !(step.Release? && step.threw)
    && step.i < |s.callers| && s.callers[step.i].session == session
  }

  // What a running body does next.
  function BodyStep(s: State, i: nat): Step
    requires i < |s.callers| && InBody(s.callers[i].phase)
  {
    match s.callers[i].phase
    case ToExit => Exit(i)
    case ToCheck => Check(i, false)
    case ToClear => Clear(i)
    case ToLaunch => Launch(i)
    case _ => Release(i, false)
  }

  // The lock never jams: as long as a caller is unfinished, some caller of its session
  // can enter, run on, return, or have its promise settle, without anything throwing.
  lemma LockNeverJams(steps: seq<Step>, i: nat)
    requires Legal(steps) && i < |Run(steps).callers| && Run(steps).callers[i].phase != Finished
    ensures exists step: Step :: Moves(Run(steps), step, Run(steps).callers[i].session)
  {
    RunKeepsInv(steps);
    assert !Run(steps).callers[i].settled by { assert ChainedAt(Run(steps), i); }
    PromiseProgress(Run(steps), i);
  }

  lemma {:induction false} PromiseProgress(s: State, j: nat)
    requires Inv(s) && j < |s.callers| && !s.callers[j].settled
    ensures exists step: Step :: Moves(s, step, s.callers[j].session)
    decreases j
  {
    assert ChainedAt(s, j);
    var session := s.callers[j].session;
    if InBody(s.callers[j].phase) {
      assert Moves(s, BodyStep(s, j), session);
    } else if !PredecessorSettled(s, s.callers[j]) {
      PromiseProgress(s, s.callers[j].behind.value);
    } else if s.callers[j].phase == Waiting {
      assert Moves(s, Enter(j), session);
    } else {
      assert Moves(s, SettleQueued(j), session);
    }
  }

  // How many steps a caller can still take.
  function StepsLeft(c: Caller): nat {
    if c.settled then 0
    else match c.phase
         case Waiting => 7
         case ToExit => 6
         case ToCheck => 5
         case ToClear => 4
         case ToLaunch => 3
         case ToAwait => 2
         case ToReturn => 2
         case Finished => 1
  }

  function TotalLeft(callers: seq<Caller>): nat {
    if callers == [] then 0 else TotalLeft(callers[..|callers| - 1]) + StepsLeft(callers[|callers| - 1])
  }

  lemma {:induction false} OneLess(callers: seq<Caller>, i: nat, c: Caller)
    requires i < |callers| && StepsLeft(c) < StepsLeft(callers[i])
    ensures TotalLeft(callers[i := c]) < TotalLeft(callers)
  {
    var n := |callers| - 1;
    if i < n {
      OneLess(callers[..n], i, c);
      assert callers[i := c][..n] == callers[..n][i := c];
    } else {
      assert callers[i := c][..n] == callers[..n];
    }
  }

  // Every step of a caller uses up some of a bounded store of steps.
  lemma StepsRunOut(s: State, step: Step)
    requires Chained(s) && Enabled(s, step) && !step.Join? && !step.UnlockedExit?
    ensures TotalLeft(Next(s, step).callers) < TotalLeft(s.callers)
    ensures |Next(s, step).callers| == |s.callers|
  {
    hide TotalLeft, BehindLatest, AllBefore;
    var i := step.i;
    assert ChainedAt(s, i);
    var after := Next(s, step).callers;
    assert after == s.callers[i := after[i]];
    OneLess(s.callers, i, after[i]);
  }

  // A continuation of a run by moves of its callers alone.
  ghost predicate OnlyMoves(steps: seq<Step>, more: seq<Step>) {
    && Legal(steps + more)
    && forall k :: 0 <= k < |more| ==> !more[k].Join? && !more[k].UnlockedExit?
  }

  lemma {:induction false} MovesAreBounded(steps: seq<Step>, more: seq<Step>)
    requires Legal(steps) && OnlyMoves(steps, more)
    ensures TotalLeft(Run(steps + more).callers) + |more| <= TotalLeft(Run(steps).callers)
    ensures |Run(steps + more).callers| == |Run(steps).callers|
  {
    hide Run, Enabled, TotalLeft, Next;
    if more == [] {
      assert steps + more == steps;
    } else {
      var m := |more| - 1;
      assert (steps + more)[..|steps + more| - 1] == steps + more[..m];
      assert (steps + more)[|steps + more| - 1] == more[m];
      MovesAreBounded(steps, more[..m]);
      RunUnfolds(steps + more);
      RunKeepsInv(steps + more[..m]);
      StepsRunOut(Run(steps + more[..m]), more[m]);
    }
  }

  lemma RunUnfolds(steps: seq<Step>)
    requires Legal(steps) && steps != []
    ensures Legal(steps[..|steps| - 1]) && Enabled(Run(steps[..|steps| - 1]), steps[|steps| - 1])
    ensures Run(steps) == Next(Run(steps[..|steps| - 1]), steps[|steps| - 1])
  {
  }

  predicate Outside(step: Step) {
    step.Join? || step.UnlockedExit? || (step.Release? && step.threw)
  }

  lemma FinishedOrMoves(steps: seq<Step>, i: nat)
    requires Legal(steps) && i < |Run(steps).callers|
    ensures Run(steps).callers[i].phase == Finished || exists step: Step :: Enabled(Run(steps), step) && !Outside(step)
  {
    if Run(steps).callers[i].phase != Finished {
      LockNeverJams(steps, i);
      hide Run, Enabled;
      var step: Step :| Moves(Run(steps), step, Run(steps).callers[i].session);
      assert Enabled(Run(steps), step) && !Outside(step);
    }
  }

  // When nobody can move any more, everybody has finished and the table is empty.
  lemma StillnessIsDone(steps: seq<Step>)
    requires Legal(steps)
    requires forall step: Step :: Enabled(Run(steps), step) ==> Outside(step)
    ensures forall i :: 0 <= i < |Run(steps).callers| ==> Run(steps).callers[i].phase == Finished
    ensures Run(steps).locks == map[]
  {
    var s := Run(steps);
    hide Run, Enabled;
    forall i | 0 <= i < |s.callers| ensures s.callers[i].phase == Finished {
      FinishedOrMoves(steps, i);
    }
    forall session ensures session !in s.locks {
      LockEntryGoneWithLastCaller(steps, session);
    }
  }

  // Main result: once callers stop joining, no continuation is longer than the steps they
  // have left, and wherever no caller can go on (short of throwing) they have all finished
  // and the table is empty.
  lemma LockDrains(steps: seq<Step>, more: seq<Step>)
    requires Legal(steps) && OnlyMoves(steps, more)
    ensures |more| <= TotalLeft(Run(steps).callers)
    ensures (forall step: Step :: Enabled(Run(steps + more), step) ==> Outside(step)) ==>
              && (forall i :: 0 <= i < |Run(steps + more).callers| ==> Run(steps + more).callers[i].phase == Finished)
              && Run(steps + more).locks == map[]
  {
    hide Run, Enabled, TotalLeft;
    MovesAreBounded(steps, more);
    if forall step: Step :: Enabled(Run(steps + more), step) ==> Outside(step) {
      StillnessIsDone(steps + more);
    }
  }

  // ---- What a body does ------------------------------------------------------------------------------

  // What a caller did to the pane under the lock, in order.
  function OwnActions(log: seq<Entry>, i: nat): seq<Action> {
    if log == [] then []
    else
      var n := |log| - 1;
      OwnActions(log[..n], i) + if log[n].who == Some(i) then [log[n].action] else []
  }

  // A restart first types the exit command; a start does not.
  function Prelude(kind: Kind): seq<Action> {
    if kind == RestartContinue then [Exited] else []
  }

  // The two ways through a body: the agent still runs, or it is launched.
  function Staying(kind: Kind): seq<Action> {
    Prelude(kind) + [Checked(true)]
  }

  function Launching(kind: Kind): seq<Action> {
    Prelude(kind) + [Checked(false), Cleared, Launched]
  }

  ghost predicate ActedAt(s: State, i: nat)
    requires i < |s.callers|
  {
    var kind, own := s.callers[i].kind, OwnActions(s.log, i);
    match s.callers[i].phase
    case Waiting => own == []
    case ToExit => own == [] && kind == RestartContinue
    case ToCheck => own == Prelude(kind)
    case ToReturn => own == Staying(kind)
    case ToClear => own == Prelude(kind) + [Checked(false)]
    case ToLaunch => own == Prelude(kind) + [Checked(false), Cleared]
    case ToAwait => own == Launching(kind)
    case Finished => own <= Staying(kind) || own <= Launching(kind)
  }

  ghost predicate Acted(s: State) {
    && (forall i :: 0 <= i < |s.callers| ==> ActedAt(s, i))
    && (forall p :: 0 <= p < |s.log| && s.log[p].who.Some? ==> s.log[p].who.value < |s.callers|)
  }

  lemma OwnStep(log: seq<Entry>, e: Entry, i: nat)
    ensures OwnActions(log + [e], i) == OwnActions(log, i) + if e.who == Some(i) then [e.action] else []
  {
    assert (log + [e])[..|log|] == log;
  }

  lemma {:induction false} NobodyYet(log: seq<Entry>, i: nat)
    requires forall p :: 0 <= p < |log| && log[p].who.Some? ==> log[p].who.value != i
    ensures OwnActions(log, i) == []
  {
    if log != [] { NobodyYet(log[..|log| - 1], i); }
  }

  lemma JoinActed(s: State, session: string, kind: Kind)
    requires Acted(s)
    ensures Acted(Joined(s, session, kind))
  {
    var s' := Joined(s, session, kind);
    NobodyYet(s.log, |s.callers|);
    forall i | 0 <= i < |s'.callers| ensures ActedAt(s', i) {
      if i < |s.callers| { assert ActedAt(s, i); }
    }
  }

  // A caller goes on without touching the pane.
  lemma GotoActed(s: State, i: nat, s': State)
    requires Acted(s) && i < |s.callers| && s'.log == s.log && |s'.callers| == |s.callers|
    requires forall k :: 0 <= k < |s.callers| && k != i ==> s'.callers[k] == s.callers[k]
    requires ActedAt(s', i)
    ensures Acted(s')
  {
    forall k | 0 <= k < |s'.callers| ensures ActedAt(s', k) {
      assert ActedAt(s, k);
    }
  }

  // A caller goes on by doing something to the pane.
  lemma ActActed(s: State, i: nat, phase: Phase, action: Action)
    requires Acted(s) && i < |s.callers|
    requires
      var kind, own := s.callers[i].kind, OwnActions(s.log, i) + [action];
      || (phase == ToCheck && own == Prelude(kind))
      || (phase == ToReturn && own == Staying(kind))
      || (phase == ToClear && own == Prelude(kind) + [Checked(false)])
      || (phase == ToLaunch && own == Prelude(kind) + [Checked(false), Cleared])
      || (phase == ToAwait && own == Launching(kind))
    ensures Acted(Act(Goto(s, i, phase), i, action))
  {
    hide OwnActions, Prelude, Staying, Launching;
    var s' := Act(Goto(s, i, phase), i, action);
    forall k | 0 <= k < |s'.callers| ensures ActedAt(s', k) {
      assert ActedAt(s, k);
      OwnStep(s.log, Entry(s.callers[i].session, Some(i), action), k);
    }
  }

  lemma {:induction false} RunActed(steps: seq<Step>)
    requires Legal(steps)
    ensures Acted(Run(steps))
  {
    if steps != [] {
      RunUnfolds(steps);
      RunActed(steps[..|steps| - 1]);
      StepActed(Run(steps[..|steps| - 1]), steps[|steps| - 1]);
    }
  }

  lemma StepActed(s: State, step: Step)
    requires Acted(s) && Enabled(s, step)
    ensures Acted(Next(s, step))
  {
    match step
    case Join(session, kind) => JoinActed(s, session, kind);
    case UnlockedExit(session) => OutsideActed(s, Entry(session, None, Exited));
    case Enter(i) =>
      assert ActedAt(s, i);
      GotoActed(s, i, Next(s, step));
    case SettleQueued(i) =>
      assert ActedAt(s, i);
      GotoActed(s, i, Next(s, step));
    case Release(i, _) =>
      assert ActedAt(s, i);
      GotoActed(s, i, Next(s, step));
    case Exit(i) =>
      assert ActedAt(s, i);
      ActActed(s, i, ToCheck, Exited);
    case Check(i, running) =>
      assert ActedAt(s, i);
      ActActed(s, i, if running then ToReturn else ToClear, Checked(running));
    case Clear(i) =>
      assert ActedAt(s, i);
      assert Prelude(s.callers[i].kind) + [Checked(false)] + [Cleared]
          == Prelude(s.callers[i].kind) + [Checked(false), Cleared];
      ActActed(s, i, ToLaunch, Cleared);
    case Launch(i) =>
      assert ActedAt(s, i);
      assert Prelude(s.callers[i].kind) + [Checked(false), Cleared] + [Launched] == Launching(s.callers[i].kind);
      ActActed(s, i, ToAwait, Launched);
  }

  lemma OutsideActed(s: State, e: Entry)
    requires Acted(s) && e.who.None?
    ensures Acted(s.(log := s.log + [e]))
  {
    var s' := s.(log := s.log + [e]);
    forall k | 0 <= k < |s'.callers| ensures ActedAt(s', k) {
      assert ActedAt(s, k);
      OwnStep(s.log, e, k);
    }
  }

  // A finished caller does nothing more.
  lemma {:induction false} FinishedIsQuiet(steps: seq<Step>, m: nat, i: nat)
    requires Legal(steps) && m <= |steps| && Legal(steps[..m])
    requires i < |Run(steps[..m]).callers| && Run(steps[..m]).callers[i].phase == Finished
    ensures
      var before, now := Run(steps[..m]).callers, Run(steps).callers;
      i < |now| && now[i] == before[i].(settled := now[i].settled)
    ensures OwnActions(Run(steps).log, i) == OwnActions(Run(steps[..m]).log, i)
  {
    if m == |steps| {
      assert steps[..m] == steps;
    } else {
      var n := |steps| - 1;
      assert steps[..n][..m] == steps[..m];
      RunUnfolds(steps);
      FinishedIsQuiet(steps[..n], m, i);
      QuietStep(Run(steps[..n]), steps[n], i);
    }
  }

  lemma QuietStep(s: State, step: Step, i: nat)
    requires Enabled(s, step) && i < |s.callers| && s.callers[i].phase == Finished
    ensures
      var s' := Next(s, step);
      && i < |s'.callers| && s'.callers[i] == s.callers[i].(settled := s'.callers[i].settled)
      && OwnActions(s'.log, i) == OwnActions(s.log, i)
  {
    hide OwnActions;
    match step
    case Exit(k) => OwnStep(s.log, Entry(s.callers[k].session, Some(k), Exited), i);
    case Check(k, running) => OwnStep(s.log, Entry(s.callers[k].session, Some(k), Checked(running)), i);
    case Clear(k) => OwnStep(s.log, Entry(s.callers[k].session, Some(k), Cleared), i);
    case Launch(k) => OwnStep(s.log, Entry(s.callers[k].session, Some(k), Launched), i);
    case UnlockedExit(session) => OwnStep(s.log, Entry(session, None, Exited), i);
    case _ =>
  }

  // Main result: a body that returned did exactly its work. A start found the agent
  // running, or found it not running, cleared the shell and launched it; a restart typed
  // the exit command first. A body that threw, or is still under way, did a first part of
  // that.
  lemma BodiesDoTheirWork(steps: seq<Step>, m: nat, i: nat)
    requires Legal(steps) && i < |Run(steps).callers|
    ensures
      var kind, own := Run(steps).callers[i].kind, OwnActions(Run(steps).log, i);
      var prelude := if kind == RestartContinue then [Exited] else [];
      && (own <= prelude + [Checked(true)] || own <= prelude + [Checked(false), Cleared, Launched])
      && (m < |steps| && steps[m] == Release(i, false) ==>
            own == prelude + [Checked(true)] || own == prelude + [Checked(false), Cleared, Launched])
  {
    RunActed(steps);
    assert ActedAt(Run(steps), i);
    if m < |steps| && steps[m] == Release(i, false) {
      LegalPrefix(steps, m + 1);
      assert steps[..m + 1][..m] == steps[..m];
      RunUnfolds(steps[..m + 1]);
      RunActed(steps[..m]);
      assert ActedAt(Run(steps[..m]), i);
      FinishedIsQuiet(steps, m + 1, i);
    }
  }

  lemma {:induction false} LegalPrefix(steps: seq<Step>, m: nat)
    requires Legal(steps) && m <= |steps|
    ensures Legal(steps[..m])
  {
    if m < |steps| {
      LegalPrefix(steps[..|steps| - 1], m);
      assert steps[..|steps| - 1][..m] == steps[..m];
    } else {
      assert steps[..m] == steps;
    }
  }

  // ---- The lock table of a runner ------------------------------------------------------------------

  class LaunchLocks {
    var launchLocks: map<string, nat>
    var callers: seq<Caller>
    ghost var log: seq<Entry>

    ghost function Value(): State
      reads this
    {
      State(callers, launchLocks, log)
    }

    constructor ()
      ensures Value() == INITIAL
    {
      launchLocks, callers, log := map[], [], [];
    }

    // The part of withLaunchLock before it waits.
    method JoinChain(session: string, kind: Kind) returns (ticket: nat)
      modifies this`launchLocks, this`callers
      ensures Value() == Next(old(Value()), Join(session, kind)) && ticket == old(|callers|)
    {
      var previous: Option<nat> := None;
      if session in launchLocks { previous := Some(launchLocks[session]); }
      ticket := |callers|;
      callers := callers + [Caller(session, kind, previous, Waiting, false)];
      launchLocks := launchLocks[session := ticket];
    }

    // The finally block, reached by returning and by throwing.
    method ReleaseLock(ticket: nat)
      requires ticket < |callers| && InBody(callers[ticket].phase)
      modifies this`launchLocks, this`callers
      ensures Value() == Next(old(Value()), Release(ticket, true))
    {
      var session := callers[ticket].session;
      callers := callers[ticket := callers[ticket].(phase := Finished)];
      if session in launchLocks && launchLocks[session] == ticket {
        launchLocks := launchLocks - {session};
      }
    }
  }
}
