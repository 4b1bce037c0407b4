// src/adapters/telegram/progress.ts: one live message that is edited in place, first by
// ticks and at last by the result. Every edit is chained behind the previous one.
module Progress {
  import opened Basics

  // An edit's text, and whether it asks for formatting (a parse_mode).
  datatype Edit = Edit(text: string, formatted: bool)

  // A call of `edit`: queued behind the chain it found, sent to the API, answered.
  datatype Phase = Queued | Sent | Landed | Failed(parseError: bool)

  // behind: the call whose chain was the tail when this one was made;
  // chained: the chain promise this call left behind has settled.
  datatype Call = Call(edit: Edit, behind: Option<nat>, phase: Phase, chained: bool)

  // Where the one finalize call stands.
  datatype Final =
    | NotCalled
    | Waiting(k: nat)       // for the formatted edit
    | Retrying(k: nat)      // for the plain one
    | Reported(ok: bool)

  // tail: the call that owns the current chain; shown: what the message displays;
  // received: the edits the API was given, in order.
  datatype State = State(
    calls: seq<Call>, tail: Option<nat>, finalized: bool, final: Final, result: Edit,
    shown: Edit, received: seq<Edit>)

  datatype Step =
    | Tick(edit: Edit)
    | Finalize(edit: Edit)
    | ResumeFinalize
    | Start(k: nat)                                     // the promise engine runs a queued edit
    | Succeed(k: nat)                                   // the API answers
    | Fail(k: nat, parseError: bool, applied: bool)     // a lost answer may still have been applied
    | SettleChain(k: nat)

  function Initial(first: Edit): State {
    State([], None, false, NotCalled, first, first, [])
  }

  function Enqueue(s: State, e: Edit): State {
    s.(calls := s.calls + [Call(e, s.tail, Queued, false)], tail := Some(|s.calls|))
  }

  predicate Answered(c: Call) {
    c.phase.Landed? || c.phase.Failed?
  }

  predicate Enabled(s: State, step: Step) {
    match step
    case Tick(_) => true
    case Finalize(_) => s.final.NotCalled?
    case ResumeFinalize =>
      (s.final.Waiting? || s.final.Retrying?) && s.final.k < |s.calls| && Answered(s.calls[s.final.k])
    case Start(k) =>
      && k < |s.calls| && s.calls[k].phase.Queued?
      && (match s.calls[k].behind case None => true case Some(j) => j < |s.calls| && s.calls[j].chained)
    case Succeed(k) => k < |s.calls| && s.calls[k].phase.Sent?
    case Fail(k, _, _) => k < |s.calls| && s.calls[k].phase.Sent?
    case SettleChain(k) => k < |s.calls| && Answered(s.calls[k]) && !s.calls[k].chained
  }

  function FinalizeResumed(s: State): State
    requires Enabled(s, ResumeFinalize)
  {
    var phase := s.calls[s.final.k].phase;
    if phase.Landed? then s.(final := Reported(true))
    else if s.final.Waiting? && phase.parseError && s.result.formatted then
      Enqueue(s, Edit(s.result.text, false)).(final := Retrying(|s.calls|))
    else s.(final := Reported(false))
  }

  function Next(s: State, step: Step): State
    requires Enabled(s, step)
  {
    match step
    case Tick(e) => if s.finalized then s else Enqueue(s, e)
    case Finalize(e) => Enqueue(s, e).(finalized := true, final := Waiting(|s.calls|), result := e)
    case ResumeFinalize => FinalizeResumed(s)
    case Start(k) =>
      s.(calls := s.calls[k := s.calls[k].(phase := Sent)], received := s.received + [s.calls[k].edit])
    case Succeed(k) => s.(calls := s.calls[k := s.calls[k].(phase := Landed)], shown := s.calls[k].edit)
    case Fail(k, parseError, applied) =>
      s.(calls := s.calls[k := s.calls[k].(phase := Failed(parseError))],
         shown := if applied then s.calls[k].edit else s.shown)
    case SettleChain(k) => s.(calls := s.calls[k := s.calls[k].(chained := true)])
  }

  predicate Legal(s: State, steps: seq<Step>)
    decreases |steps|, 0
  {
    steps == [] ||
    (Legal(s, steps[..|steps| - 1]) && Enabled(Run(s, steps[..|steps| - 1]), steps[|steps| - 1]))
  }

  function Run(s: State, steps: seq<Step>): State
    requires Legal(s, steps)
    decreases |steps|, 1
  {
    if steps == [] then s else Next(Run(s, steps[..|steps| - 1]), steps[|steps| - 1])
  }

  // ---- Edits reach the API one at a time, in call order ---------------------------------

  function EditsOf(calls: seq<Call>): seq<Edit> {
    seq(|calls|, i requires 0 <= i < |calls| => calls[i].edit)
  }

  // The calls that have been sent are a prefix, and all but the last of them are
  // answered; what the API received is exactly their edits.
  ghost predicate InOrder(s: State) {
    && (s.tail == if s.calls == [] then None else Some(|s.calls| - 1))
    && (forall k :: 0 <= k < |s.calls| ==> s.calls[k].behind == if k == 0 then None else Some(k - 1))
    && (forall k :: 0 <= k < |s.calls| && s.calls[k].chained ==> Answered(s.calls[k]))
    && (forall j, k :: 0 <= j < k < |s.calls| && !s.calls[k].phase.Queued? ==> Answered(s.calls[j]))
    && |s.received| <= |s.calls|
    && (forall k :: 0 <= k < |s.calls| ==> (!s.calls[k].phase.Queued? <==> k < |s.received|))
    && (forall k :: 0 <= k < |s.received| ==> s.received[k] == s.calls[k].edit)
  }

  lemma EnqueueInOrder(s: State, e: Edit)
    requires InOrder(s)
    ensures InOrder(Enqueue(s, e))
  {
  }

  lemma StartInOrder(s: State, k: nat)
    requires InOrder(s) && Enabled(s, Start(k))
    ensures InOrder(Next(s, Start(k)))
    ensures k == |s.received|
  {
    // everything before k has been answered, so k is the first queued call
    forall j | 0 <= j < k ensures Answered(s.calls[j]) {
      assert s.calls[k].behind == Some(k - 1) && Answered(s.calls[k - 1]);
    }
    assert k <= |s.received|;
  }

  lemma AnswerInOrder(s: State, step: Step, k: nat)
    requires InOrder(s) && Enabled(s, step) && (step.Succeed? || step.Fail?) && step.k == k
    ensures InOrder(Next(s, step))
  {
    assert forall j :: 0 <= j < |s.calls| && j != k ==> Next(s, step).calls[j] == s.calls[j];
  }

  lemma SettleChainInOrder(s: State, k: nat)
    requires InOrder(s) && Enabled(s, SettleChain(k))
    ensures InOrder(Next(s, SettleChain(k)))
  {
    assert forall j :: 0 <= j < |s.calls| && j != k ==> Next(s, SettleChain(k)).calls[j] == s.calls[j];
  }

  lemma OrderIgnoresFinal(s: State, final: Final)
    requires InOrder(s)
    ensures InOrder(s.(final := final))
  {
  }

  lemma FinalizeInOrder(s: State, e: Edit)
    requires InOrder(s) && Enabled(s, Finalize(e))
    ensures InOrder(Next(s, Finalize(e)))
  {
    EnqueueInOrder(s, e);
  }

  lemma StepInOrder(s: State, step: Step)
    requires InOrder(s) && Enabled(s, step)
    ensures InOrder(Next(s, step))
  {
    hide InOrder;
    match step
    case Tick(e) => EnqueueInOrder(s, e);
    case Finalize(e) => FinalizeInOrder(s, e);
    case ResumeFinalize =>
      EnqueueInOrder(s, Edit(s.result.text, false));
      OrderIgnoresFinal(s, Next(s, step).final);
      OrderIgnoresFinal(Enqueue(s, Edit(s.result.text, false)), Next(s, step).final);
    case Start(k) => StartInOrder(s, k);
    case Succeed(k) => AnswerInOrder(s, step, k);
    case Fail(k, _, _) => AnswerInOrder(s, step, k);
    case SettleChain(k) => SettleChainInOrder(s, k);
  }

  lemma {:induction false} RunInOrder(first: Edit, steps: seq<Step>)
    requires Legal(Initial(first), steps)
    ensures InOrder(Run(Initial(first), steps))
  {
    if steps != [] {
      RunInOrder(first, steps[..|steps| - 1]);
      StepInOrder(Run(Initial(first), steps[..|steps| - 1]), steps[|steps| - 1]);
    }
  }

  // Main result: in every interleaving, the API receives the edits in the order they
  // were called for, and is never given one while another is unanswered.
  lemma EditsReachApiInCallOrder(first: Edit, steps: seq<Step>)
    requires Legal(Initial(first), steps)
    ensures
      var s := Run(Initial(first), steps);
      && s.received <= EditsOf(s.calls)
      && (forall j, k :: 0 <= j < k < |s.calls| ==> !(s.calls[j].phase.Sent? && s.calls[k].phase.Sent?))
  {
    RunInOrder(first, steps);
    var s := Run(Initial(first), steps);
    assert s.received == EditsOf(s.calls)[..|s.received|];
  }

  // ---- The final text wins -----------------------------------------------------------------

  predicate IsResult(s: State, e: Edit) {
    e == s.result || e == Edit(s.result.text, false)
  }

  // The finalize edit is always the last call, so nothing can overwrite it.
  ghost predicate FinalLast(s: State) {
    && (s.finalized <==> !s.final.NotCalled?)
    && (s.finalized ==> s.calls != [] && IsResult(s, s.calls[|s.calls| - 1].edit))
    && (s.final.Waiting? || s.final.Retrying? ==> s.final.k == |s.calls| - 1)
    && (s.final == Reported(true) ==> s.calls[|s.calls| - 1].phase.Landed?)
    && (s.calls != [] && s.calls[|s.calls| - 1].phase.Landed? ==> s.shown == s.calls[|s.calls| - 1].edit)
  }

  lemma StepFinalLast(s: State, step: Step)
    requires InOrder(s) && FinalLast(s) && Enabled(s, step)
    ensures FinalLast(Next(s, step))
  {
    if step.Start? { StartInOrder(s, step.k); }
  }

  lemma {:induction false} RunFinalLast(first: Edit, steps: seq<Step>)
    requires Legal(Initial(first), steps)
    ensures FinalLast(Run(Initial(first), steps))
  {
    if steps != [] {
      RunFinalLast(first, steps[..|steps| - 1]);
      RunInOrder(first, steps[..|steps| - 1]);
      StepFinalLast(Run(Initial(first), steps[..|steps| - 1]), steps[|steps| - 1]);
    }
  }

  lemma {:induction false} SuccessStays(first: Edit, steps: seq<Step>, n: nat)
    requires Legal(Initial(first), steps) && n <= |steps|
    requires Legal(Initial(first), steps[..n]) && Run(Initial(first), steps[..n]).final == Reported(true)
    ensures
      var reported, now := Run(Initial(first), steps[..n]), Run(Initial(first), steps);
      now.final == Reported(true) && now.shown == reported.shown
  {
    if n == |steps| {
      assert steps[..n] == steps;
    } else {
      var m := |steps| - 1;
      assert steps[..m][..n] == steps[..n];
      SuccessStays(first, steps[..m], n);
      RunInOrder(first, steps[..m]);
      RunFinalLast(first, steps[..m]);
      SuccessIsStable(Run(Initial(first), steps[..m]), steps[m]);
    }
  }

  lemma SuccessIsStable(s: State, step: Step)
    requires InOrder(s) && FinalLast(s) && s.final == Reported(true) && Enabled(s, step)
    ensures Next(s, step).final == s.final && Next(s, step).result == s.result && Next(s, step).shown == s.shown
  {
    var last := |s.calls| - 1;
    assert forall k :: 0 <= k <= last ==> Answered(s.calls[k]);
  }

  // ---- The calls are those of the trace ---------------------------------------------------------

  // The text finalize was called with.
  function FinalizedWith(steps: seq<Step>): Option<Edit> {
    if steps == [] then None
    else match steps[|steps| - 1]
         case Finalize(e) => Some(e)
         case _ => FinalizedWith(steps[..|steps| - 1])
  }

  // The ticks before that, in order.
  function TicksOf(steps: seq<Step>): seq<Edit> {
    if steps == [] then []
    else
      var before := steps[..|steps| - 1];
      TicksOf(before)
      + match steps[|steps| - 1]
        case Tick(e) => if FinalizedWith(before).None? then [e] else []
        case _ => []
  }

  // The calls are the ticks, the finalize text, and its plain fallback only after a parse
  // error of a formatted one.
  ghost predicate CallsFrom(s: State, ticks: seq<Edit>, given: Option<Edit>) {
    var n, edits := |ticks|, EditsOf(s.calls);
    match given
    case None => s.final.NotCalled? && !s.finalized && edits == ticks
    case Some(e) =>
      && s.finalized && s.result == e && n < |s.calls|
      && (|| (edits == ticks + [e] && !s.final.Retrying? && (s.final.Waiting? ==> s.final.k == n))
          || (&& edits == ticks + [e, Edit(e.text, false)]
              && e.formatted && s.calls[n].phase == Failed(true)
              && !s.final.NotCalled? && !s.final.Waiting?
              && (s.final.Retrying? ==> s.final.k == n + 1)))
      && (s.final == Reported(true) ==> s.calls[|s.calls| - 1].phase.Landed?)
      && !s.final.NotCalled?
  }

  lemma EnqueuedEdits(s: State, e: Edit)
    ensures EditsOf(Enqueue(s, e).calls) == EditsOf(s.calls) + [e]
  {
  }

  lemma SameEdits(calls: seq<Call>, k: nat, c: Call)
    requires k < |calls| && c.edit == calls[k].edit
    ensures EditsOf(calls[k := c]) == EditsOf(calls)
  {
  }

  lemma StepCallsFrom(s: State, step: Step, ticks: seq<Edit>, given: Option<Edit>)
    requires CallsFrom(s, ticks, given) && Enabled(s, step)
    ensures
      var ticks' := ticks + if step.Tick? && given.None? then [step.edit] else [];
      CallsFrom(Next(s, step), ticks', if step.Finalize? then Some(step.edit) else given)
  {
    match step
    case Tick(e) => EnqueuedEdits(s, e);
    case Finalize(e) => EnqueuedEdits(s, e);
    case ResumeFinalize => ResumeCallsFrom(s, ticks, given);
    case Start(k) => SameEdits(s.calls, k, s.calls[k].(phase := Sent));
    case Succeed(k) => SameEdits(s.calls, k, s.calls[k].(phase := Landed));
    case Fail(k, parseError, _) => SameEdits(s.calls, k, s.calls[k].(phase := Failed(parseError)));
    case SettleChain(k) => SameEdits(s.calls, k, s.calls[k].(chained := true));
  }

  lemma ResumeCallsFrom(s: State, ticks: seq<Edit>, given: Option<Edit>)
    requires CallsFrom(s, ticks, given) && Enabled(s, ResumeFinalize)
    ensures CallsFrom(FinalizeResumed(s), ticks, given)
  {
    EnqueuedEdits(s, Edit(s.result.text, false));
    assert |EditsOf(s.calls)| == |s.calls|;
    assert ticks + [s.result] + [Edit(s.result.text, false)] == ticks + [s.result, Edit(s.result.text, false)];
  }

  lemma {:induction false} RunCallsFrom(first: Edit, steps: seq<Step>)
    requires Legal(Initial(first), steps)
    ensures CallsFrom(Run(Initial(first), steps), TicksOf(steps), FinalizedWith(steps))
  {
    hide CallsFrom, Next, Enabled;
    if steps == [] {
      StartsFrom(first);
    } else {
      RunUnfolds(first, steps);
      var before := steps[..|steps| - 1];
      RunCallsFrom(first, before);
      StepCallsFrom(Run(Initial(first), before), steps[|steps| - 1], TicksOf(before), FinalizedWith(before));
      assert TicksOf(before) + [] == TicksOf(before);
    }
  }

  lemma StartsFrom(first: Edit)
    ensures CallsFrom(Initial(first), [], None)
  {
  }

  // Finalize is called once, so what it was called with is the argument of that step.
  lemma {:induction false} FinalizeIsTheStep(first: Edit, steps: seq<Step>, i: nat)
    requires Legal(Initial(first), steps) && i < |steps| && steps[i].Finalize?
    ensures FinalizedWith(steps) == Some(steps[i].edit)
  {
    var n := |steps| - 1;
    RunUnfolds(first, steps);
    if i < n {
      FinalizeIsTheStep(first, steps[..n], i);
      RunCallsFrom(first, steps[..n]);
    }
  }

  // Main result: in every run, what is called for is exactly the ticks before finalize in
  // order, then the finalize text, then its plain fallback, if the formatted text failed to
  // parse. A tick after finalize calls for nothing.
  lemma CallsAreTheTrace(first: Edit, steps: seq<Step>)
    requires Legal(Initial(first), steps)
    ensures
      var s := Run(Initial(first), steps);
      match FinalizedWith(steps)
      case None => EditsOf(s.calls) == TicksOf(steps)
      case Some(e) =>
        || EditsOf(s.calls) == TicksOf(steps) + [e]
        || (&& EditsOf(s.calls) == TicksOf(steps) + [e, Edit(e.text, false)]
            && e.formatted && s.calls[|TicksOf(steps)|].phase == Failed(true))
  {
    RunCallsFrom(first, steps);
  }

  // Main result: once finalize has reported success, the message shows the text finalize
  // was called with, or its plain fallback after a parse error of the formatted one, and
  // keeps showing it whatever happens later.
  lemma FinalTextWins(first: Edit, steps: seq<Step>, i: nat, e: Edit, n: nat)
    requires Legal(Initial(first), steps) && i < |steps| && steps[i] == Finalize(e)
    requires n <= |steps| && Legal(Initial(first), steps[..n])
    requires Run(Initial(first), steps[..n]).final == Reported(true)
    ensures
      var reported, now := Run(Initial(first), steps[..n]), Run(Initial(first), steps);
      && now.final == Reported(true) && now.shown == reported.shown
      && (|| now.shown == e
          || (&& now.shown == Edit(e.text, false) && e.formatted
              && exists k :: 0 <= k < |now.calls| && now.calls[k].edit == e && now.calls[k].phase == Failed(true)))
  {
    SuccessStays(first, steps, n);
    FinalizeIsTheStep(first, steps, i);
    RunCallsFrom(first, steps);
    RunFinalLast(first, steps);
    var now, ticks := Run(Initial(first), steps), TicksOf(steps);
    assert |EditsOf(now.calls)| == |now.calls|;
    assert now.calls[|now.calls| - 1].edit == EditsOf(now.calls)[|now.calls| - 1];
    assert now.calls[|ticks|].edit == EditsOf(now.calls)[|ticks|] == e;
  }

  // A failed report means both the edit and, when it was tried, its plain fallback failed.
  lemma FailureMeansNotLanded(s: State, step: Step)
    requires InOrder(s) && FinalLast(s) && Enabled(s, step)
    requires s.final != Reported(false) && Next(s, step).final == Reported(false)
    ensures s.calls[|s.calls| - 1].phase.Failed?
    ensures s.final.Waiting? ==> !(s.calls[|s.calls| - 1].phase.parseError && s.result.formatted)
  {
  }

  // ---- Everything gets done ---------------------------------------------------------------------

  // A step of the promise engine or of the API, rather than a new call.
  predicate Moves(s: State, step: Step) {
    Enabled(s, step) && !step.Tick? && !step.Finalize?
  }

  predicate Done(c: Call) {
    Answered(c) && c.chained
  }

  // The chain never gets stuck: while an edit is not answered and chained, something can
  // move it on without failing.
  lemma {:induction false} ChainNeverStuck(s: State, k: nat)
    requires InOrder(s) && k < |s.calls| && !Done(s.calls[k])
    ensures exists step: Step :: Moves(s, step) && !step.Fail?
    decreases k
  {
    if s.calls[k].phase.Sent? {
      assert Moves(s, Succeed(k));
    } else if Answered(s.calls[k]) {
      assert Moves(s, SettleChain(k));
    } else if k == 0 || s.calls[k - 1].chained {
      assert Moves(s, Start(k));
    } else {
      ChainNeverStuck(s, k - 1);
    }
  }

  // Nor does finalize: once everything is answered, it can report.
  lemma FinalizeNeverStuck(s: State)
    requires InOrder(s) && FinalLast(s) && (s.final.Waiting? || s.final.Retrying?)
    ensures exists step: Step :: Moves(s, step) && !step.Fail?
  {
    if Answered(s.calls[s.final.k]) {
      assert Moves(s, ResumeFinalize);
    } else {
      ChainNeverStuck(s, s.final.k);
    }
  }

  function CallLeft(c: Call): nat {
    match c.phase
    case Queued => 3
    case Sent => 2
    case _ => if c.chained then 0 else 1
  }

  function CallsLeft(calls: seq<Call>): nat {
    if calls == [] then 0 else CallsLeft(calls[..|calls| - 1]) + CallLeft(calls[|calls| - 1])
  }

  // A finalize that waits may still queue its plain fallback.
  function FinalLeft(final: Final): nat {
    match final
    case Waiting(_) => 5
    case Retrying(_) => 1
    case _ => 0
  }

  function WorkLeft(s: State): nat {
    CallsLeft(s.calls) + FinalLeft(s.final)
  }

  lemma {:induction false} OneCallLess(calls: seq<Call>, k: nat, c: Call)
    requires k < |calls| && CallLeft(c) < CallLeft(calls[k])
    ensures CallsLeft(calls[k := c]) < CallsLeft(calls)
  {
    var n := |calls| - 1;
    if k < n {
      OneCallLess(calls[..n], k, c);
      assert calls[k := c][..n] == calls[..n][k := c];
    } else {
      assert calls[k := c][..n] == calls[..n];
    }
  }

  lemma OneMoreCall(calls: seq<Call>, c: Call)
    ensures CallsLeft(calls + [c]) == CallsLeft(calls) + CallLeft(c)
  {
    assert (calls + [c])[..|calls|] == calls;
  }

  lemma MoveWorks(s: State, step: Step)
    requires Moves(s, step)
    ensures WorkLeft(Next(s, step)) < WorkLeft(s)
  {
    match step
    case ResumeFinalize => OneMoreCall(s.calls, Call(Edit(s.result.text, false), s.tail, Queued, false));
    case Start(k) => OneCallLess(s.calls, k, s.calls[k].(phase := Sent));
    case Succeed(k) => OneCallLess(s.calls, k, s.calls[k].(phase := Landed));
    case Fail(k, parseError, _) => OneCallLess(s.calls, k, s.calls[k].(phase := Failed(parseError)));
    case SettleChain(k) => OneCallLess(s.calls, k, s.calls[k].(chained := true));
  }

  lemma {:induction false} MovesAreBounded(first: Edit, steps: seq<Step>, more: seq<Step>)
    requires Legal(Initial(first), steps) && Legal(Initial(first), steps + more)
    requires forall k :: 0 <= k < |more| ==> !more[k].Tick? && !more[k].Finalize?
    ensures WorkLeft(Run(Initial(first), steps + more)) + |more| <= WorkLeft(Run(Initial(first), steps))
  {
    hide Run, Enabled, WorkLeft, Next;
    if more == [] {
      assert steps + more == steps;
    } else {
      var m := |more| - 1;
      assert (steps + more)[..|steps + more| - 1] == steps + more[..m];
      assert (steps + more)[|steps + more| - 1] == more[m];
      MovesAreBounded(first, steps, more[..m]);
      RunUnfolds(first, steps + more);
      MoveWorks(Run(Initial(first), steps + more[..m]), more[m]);
    }
  }

  lemma RunUnfolds(first: Edit, steps: seq<Step>)
    requires Legal(Initial(first), steps) && steps != []
    ensures
      var before, last := steps[..|steps| - 1], steps[|steps| - 1];
      && Legal(Initial(first), before) && Enabled(Run(Initial(first), before), last)
      && Run(Initial(first), steps) == Next(Run(Initial(first), before), last)
  {
  }

  // Main result: once no new calls are made, the promises and the API take only as many
  // steps as there is work left, and wherever none of them can go on, every edit has been
  // answered and finalize, if it was called, has reported.
  lemma EverythingGetsDone(first: Edit, steps: seq<Step>, more: seq<Step>)
    requires Legal(Initial(first), steps) && Legal(Initial(first), steps + more)
    requires forall k :: 0 <= k < |more| ==> !more[k].Tick? && !more[k].Finalize?
    ensures |more| <= WorkLeft(Run(Initial(first), steps))
    ensures
      var s := Run(Initial(first), steps + more);
      (forall step: Step :: !Moves(s, step)) ==>
        (forall k :: 0 <= k < |s.calls| ==> Done(s.calls[k])) && (s.final.NotCalled? || s.final.Reported?)
  {
    MovesAreBounded(first, steps, more);
    RunInOrder(first, steps + more);
    RunFinalLast(first, steps + more);
    StillnessIsDone(Run(Initial(first), steps + more));
  }

  lemma StillnessIsDone(s: State)
    requires InOrder(s) && FinalLast(s)
    ensures (forall step: Step :: !Moves(s, step)) ==>
              (forall k :: 0 <= k < |s.calls| ==> Done(s.calls[k])) && (s.final.NotCalled? || s.final.Reported?)
  {
    hide InOrder, FinalLast, Moves, Done;
    if k :| 0 <= k < |s.calls| && !Done(s.calls[k]) {
      ChainNeverStuck(s, k);
    } else if s.final.Waiting? || s.final.Retrying? {
      FinalizeNeverStuck(s);
    }
  }

  // ---- The handle object ---------------------------------------------------------------------

  class ProgressHandle {
    var calls: seq<Call>
    var chain: Option<nat>
    var finalized: bool
    var final: Final
    var result: Edit
    ghost var shown: Edit
    ghost var received: seq<Edit>

    ghost function Value(): State
      reads this
    {
      State(calls, chain, finalized, final, result, shown, received)
    }

    constructor (first: Edit)
      ensures Value() == Initial(first)
    {
      calls, chain, finalized, final, result := [], None, false, NotCalled, first;
      shown, received := first, [];
    }

    method ChainEdit(e: Edit) returns (k: nat)
      modifies this`calls, this`chain
      ensures Value() == Enqueue(old(Value()), e) && k == old(|calls|)
    {
      k := |calls|;
      calls := calls + [Call(e, chain, Queued, false)];
      chain := Some(k);
    }

    method Update(e: Edit)
      modifies this`calls, this`chain
      ensures Value() == Next(old(Value()), Tick(e))
    {
      if finalized { return; }
      var _ := ChainEdit(e);
    }

    method StartFinalize(e: Edit)
      requires Enabled(Value(), Finalize(e))
      modifies this
      ensures Value() == Next(old(Value()), Finalize(e))
    {
      finalized := true;
      result := e;
      var k := ChainEdit(e);
      final := Waiting(k);
    }

    // What finalize does when the edit it awaits has been answered.
    method AfterAnswer()
      requires Enabled(Value(), ResumeFinalize)
      modifies this
      ensures Value() == Next(old(Value()), ResumeFinalize)
    {
      match calls[final.k].phase {
        case Landed => final := Reported(true);
        case Failed(parseError) =>
          if final.Waiting? && parseError && result.formatted {
            var k := ChainEdit(Edit(result.text, false));
            final := Retrying(k);
          } else {
            final := Reported(false);
          }
      }
    }
  }
}
