// src/core/agents/pane-poll.ts and the readiness classifiers of
// src/core/agents/runner-base.ts: polling a pane until the agent is idle or ready.
// The pane is what the environment shows at each iteration; the classifiers are
// functions of its text.
module PanePoll {
  import opened Basics
  import opened Text

  datatype Capture = Pane(text: string) | CaptureFailed | SessionMissing

  // What a classifier wants: go on polling, stop, or type keys at a gate.
  datatype Verdict = Ready | Wait | Keys(keys: seq<string>)

  // Math.ceil(a / b)
  function CeilDiv(a: int, b: int): (n: int)
    requires b > 0
    ensures (n - 1) * b < a <= n * b
  {
    var n := -((-a) / b);
    assert -a == b * ((-a) / b) + (-a) % b;
    n
  }

  // The panes captured in the first n iterations.
  function Captured(cap: nat -> Capture, n: nat): seq<string> {
    if n == 0 then []
    else Captured(cap, n - 1) + match cap(n - 1) case Pane(text) => [text] case _ => []
  }

  // A key typed in some iteration.
  datatype Keystroke = Keystroke(at: nat, key: string)

  function Strokes(at: nat, keys: seq<string>): seq<Keystroke> {
    if keys == [] then [] else Strokes(at, keys[..|keys| - 1]) + [Keystroke(at, keys[|keys| - 1])]
  }

  // What is typed in the first n iterations: the keys of every gate, when it is captured.
  function Typed(classify: string -> Verdict, cap: nat -> Capture, n: nat): seq<Keystroke> {
    if n == 0 then []
    else Typed(classify, cap, n - 1)
         + match cap(n - 1)
           case Pane(text) => (match classify(text) case Keys(keys) => Strokes(n - 1, keys) case _ => [])
           case _ => []
  }

  lemma TypedNone(classify: string -> Verdict, cap: nat -> Capture)
    ensures Typed(classify, cap, 0) == []
  {
  }

  lemma TypedStep(classify: string -> Verdict, cap: nat -> Capture, i: nat)
    ensures Typed(classify, cap, i + 1)
         == Typed(classify, cap, i)
          + if cap(i).Pane? && classify(cap(i).text).Keys? then Strokes(i, classify(cap(i).text).keys) else []
  {
  }

  lemma {:induction false} StrokesMembers(at: nat, keys: seq<string>, x: Keystroke)
    ensures x in Strokes(at, keys) <==> x.at == at && x.key in keys
  {
    if keys != [] {
      var n := |keys| - 1;
      StrokesMembers(at, keys[..n], x);
      assert keys == keys[..n] + [keys[n]];
    }
  }

  // The pane captured in this iteration is answered with this key.
  predicate Asks(classify: string -> Verdict, cap: nat -> Capture, at: nat, key: string) {
    cap(at).Pane? && classify(cap(at).text).Keys? && key in classify(cap(at).text).keys
  }

  lemma StepStrokes(classify: string -> Verdict, cap: nat -> Capture, i: nat, at: nat, key: string)
    ensures Keystroke(at, key) in Typed(classify, cap, i + 1) <==>
            Keystroke(at, key) in Typed(classify, cap, i) || (at == i && Asks(classify, cap, i, key))
  {
    TypedStep(classify, cap, i);
    if cap(i).Pane? && classify(cap(i).text).Keys? {
      StrokesMembers(i, classify(cap(i).text).keys, Keystroke(at, key));
    }
  }

  // A key is typed in an iteration exactly when that iteration captures a pane that the
  // classifier answers with it.
  lemma {:induction false} TypedExactly(classify: string -> Verdict, cap: nat -> Capture, n: nat, at: nat, key: string)
    ensures Keystroke(at, key) in Typed(classify, cap, n) <==> at < n && Asks(classify, cap, at, key)
    decreases n
  {
    hide Typed, Asks;
    if n == 0 {
      TypedNone(classify, cap);
      assert Keystroke(at, key) !in Typed(classify, cap, n);
    } else {
      TypedExactly(classify, cap, n - 1, at, key);
      StepStrokes(classify, cap, n - 1, at, key);
      assert Keystroke(at, key) in Typed(classify, cap, n) <==>
              Keystroke(at, key) in Typed(classify, cap, n - 1) || (at == n - 1 && Asks(classify, cap, n - 1, key));
    }
  }

  method SendKeys(at: nat, keys: seq<string>, sent: seq<Keystroke>) returns (more: seq<Keystroke>)
    ensures more == sent + Strokes(at, keys)
  {
    more := sent;
    var i := 0;
    while i < |keys|
      invariant 0 <= i <= |keys| && more == sent + Strokes(at, keys[..i])
    {
      assert keys[..i + 1][..i] == keys[..i] && keys[..i + 1][i] == keys[i];
      more := more + [Keystroke(at, keys[i])];
      i := i + 1;
    }
    assert keys[..i] == keys;
  }

  // How many of the last captures in a row repeated their predecessor on a quiet pane;
  // `first` is what the very first capture is compared with, if anything.
  function Streak(quiet: string -> bool, first: Option<string>, panes: seq<string>): nat {
    if panes == [] then 0
    else
      var n := |panes| - 1;
      if quiet(panes[n]) && Previous(first, panes, n) == Some(panes[n])
      then Streak(quiet, first, panes[..n]) + 1 else 0
  }

  function Previous(first: Option<string>, panes: seq<string>, k: nat): Option<string>
    requires k < |panes|
  {
    if k == 0 then first else Some(panes[k - 1])
  }

  // The last k captures are the same quiet pane, and so is what came before them.
  ghost predicate StillFor(quiet: string -> bool, first: Option<string>, panes: seq<string>, k: nat) {
    && 0 < k <= |panes|
    && var last := panes[|panes| - 1];
       && quiet(last)
       && (forall j :: |panes| - k <= j < |panes| ==> panes[j] == last)
       && Previous(first, panes, |panes| - k) == Some(last)
  }

  lemma {:induction false} StreakMeansStill(quiet: string -> bool, first: Option<string>, panes: seq<string>, k: nat)
    requires k > 0
    ensures Streak(quiet, first, panes) >= k <==> StillFor(quiet, first, panes, k)
  {
    if panes != [] {
      var n := |panes| - 1;
      var last := panes[n];
      if quiet(last) && Previous(first, panes, n) == Some(last) && k > 1 {
        StreakMeansStill(quiet, first, panes[..n], k - 1);
        if n > 0 && k - 1 <= n {
          assert forall j :: 0 <= j < n ==> panes[..n][j] == panes[j];
          assert Previous(first, panes[..n], n - (k - 1)) == Previous(first, panes, |panes| - k);
        }
        if StillFor(quiet, first, panes[..n], k - 1) {
          assert panes[..n][n - 1] == last;
        }
        if StillFor(quiet, first, panes, k) {
          assert panes[n - 1] == last;
        }
      }
      if StillFor(quiet, first, panes, k) {
        assert k > 1 ==> panes[n - 1] == last;
      }
    }
  }

  // ---- pollUntilIdle -----------------------------------------------------------------------

  datatype IdleOutcome = Idle(at: nat, pane: string) | StillBusy(last: string) | SessionGone(at: nat)

  predicate QuietPane(action: string -> Verdict, active: string -> bool, pane: string) {
    !action(pane).Keys? && !active(pane)
  }

  function Quiet(action: string -> Verdict, active: string -> bool): string -> bool {
    p => QuietPane(action, active, p)
  }

  // An idle verdict needs at least one repetition even for a tick count of zero.
  predicate IdleAt(cap: nat -> Capture, action: string -> Verdict, active: string -> bool, ticks: int, i: nat) {
    && cap(i).Pane?
    && Streak(Quiet(action, active), Some(""), Captured(cap, i + 1)) >= Max(1, ticks)
  }

  // The first iteration from i on that ends the wait decides.
  function IdleVerdict(
    cap: nat -> Capture, action: string -> Verdict, active: string -> bool, ticks: int, i: nat, budget: nat)
    : IdleOutcome
    decreases budget - i
  {
    if i >= budget then StillBusy(LastOr("", Captured(cap, budget)))
    else if cap(i).SessionMissing? then SessionGone(i)
    else if IdleAt(cap, action, active, ticks, i) then Idle(i, cap(i).text)
    else IdleVerdict(cap, action, active, ticks, i + 1, budget)
  }

  function LastOr(default: string, panes: seq<string>): string {
    if panes == [] then default else panes[|panes| - 1]
  }

  method PollUntilIdle(
    cap: nat -> Capture, action: string -> Verdict, active: string -> bool, idlePollTicks: int,
    maxWaitDoneMs: int, pollIntervalMs: int)
    returns (outcome: IdleOutcome, captures: nat, sent: seq<Keystroke>)
    requires pollIntervalMs > 0
    ensures outcome
         == IdleVerdict(cap, action, active, idlePollTicks, 0, Max(0, CeilDiv(maxWaitDoneMs, pollIntervalMs)))
    ensures captures <= Max(0, CeilDiv(maxWaitDoneMs, pollIntervalMs))
    ensures outcome.Idle? || outcome.SessionGone? ==> captures == outcome.at + 1
    ensures sent == Typed(action, cap, captures)
  {
    hide Streak, IdleVerdict, Typed, Strokes, Captured, CeilDiv;
    ghost var quiet := Quiet(action, active);
    var maxIterations := CeilDiv(maxWaitDoneMs, pollIntervalMs);
    ghost var budget := Max(0, maxIterations);
    var identicalCount, lastContent := 0, "";
    captures, sent := 0, [];
    var i := 0;
    TypedNone(action, cap);
    StreakNone(quiet, Some(""));
    CapturedNone(cap);
    while i < maxIterations
      invariant 0 <= i <= budget && captures == i
      invariant IdleVerdict(cap, action, active, idlePollTicks, 0, budget)
             == IdleVerdict(cap, action, active, idlePollTicks, i, budget)
      invariant lastContent == LastOr("", Captured(cap, i))
      invariant identicalCount == Streak(quiet, Some(""), Captured(cap, i))
      invariant sent == Typed(action, cap, i)
    {
      var capture := cap(i);
      captures := captures + 1;
      VerdictStep(cap, action, active, idlePollTicks, i, budget);
      CapturedStep(cap, i);
      TypedStep(action, cap, i);
      match capture {
        case SessionMissing =>
          return SessionGone(i), captures, sent;
        case CaptureFailed =>
        case Pane(pane) =>
          StreakStep(quiet, Some(""), Captured(cap, i), pane);
          if action(pane).Keys? {
            sent := SendKeys(i, action(pane).keys, sent);
            identicalCount := 0;
          } else if active(pane) {
            identicalCount := 0;
          } else if pane == lastContent {
            identicalCount := identicalCount + 1;
            if identicalCount >= idlePollTicks {
              return Idle(i, pane), captures, sent;
            }
          } else {
            identicalCount := 0;
          }
          lastContent := pane;
      }
      i := i + 1;
    }
    VerdictEnds(cap, action, active, idlePollTicks, budget);
    return StillBusy(lastContent), captures, sent;
  }

  lemma CapturedNone(cap: nat -> Capture)
    ensures Captured(cap, 0) == []
  {
  }

  lemma CapturedStep(cap: nat -> Capture, i: nat)
    ensures Captured(cap, i + 1) == if cap(i).Pane? then Captured(cap, i) + [cap(i).text] else Captured(cap, i)
  {
  }

  lemma StreakNone(quiet: string -> bool, first: Option<string>)
    ensures Streak(quiet, first, []) == 0
  {
  }

  lemma StreakStep(quiet: string -> bool, first: Option<string>, panes: seq<string>, pane: string)
    ensures Streak(quiet, first, panes + [pane])
         == if quiet(pane) && (if panes == [] then first else Some(panes[|panes| - 1])) == Some(pane)
            then Streak(quiet, first, panes) + 1 else 0
  {
    assert (panes + [pane])[..|panes|] == panes;
  }

  lemma VerdictStep(
    cap: nat -> Capture, action: string -> Verdict, active: string -> bool, ticks: int, i: nat, budget: nat)
    requires i < budget
    ensures IdleVerdict(cap, action, active, ticks, i, budget)
         == if cap(i).SessionMissing? then SessionGone(i)
            else if IdleAt(cap, action, active, ticks, i) then Idle(i, cap(i).text)
            else IdleVerdict(cap, action, active, ticks, i + 1, budget)
  {
  }

  lemma VerdictEnds(cap: nat -> Capture, action: string -> Verdict, active: string -> bool, ticks: int, budget: nat)
    ensures IdleVerdict(cap, action, active, ticks, budget, budget) == StillBusy(LastOr("", Captured(cap, budget)))
  {
  }

  // The verdict is taken at the first deciding iteration and no other.
  lemma {:induction false} VerdictIsFirst(
    cap: nat -> Capture, action: string -> Verdict, active: string -> bool, ticks: int, i: nat, budget: nat)
    requires i <= budget
    ensures
      var v := IdleVerdict(cap, action, active, ticks, i, budget);
      var end := if v.StillBusy? then budget else v.at;
      && i <= end <= budget
      && (forall k :: i <= k < end ==> !cap(k).SessionMissing? && !IdleAt(cap, action, active, ticks, k))
      && (v.Idle? ==> end < budget && IdleAt(cap, action, active, ticks, end) && cap(end) == Pane(v.pane))
      && (v.SessionGone? ==> end < budget && cap(end).SessionMissing?)
    decreases budget - i
  {
    hide Streak, Captured;
    if i < budget && !cap(i).SessionMissing? && !IdleAt(cap, action, active, ticks, i) {
      VerdictIsFirst(cap, action, active, ticks, i + 1, budget);
    }
  }

  // A round that is exhausted hands back the last pane captured in it.
  lemma {:induction false} BusyShowsLast(
    cap: nat -> Capture, action: string -> Verdict, active: string -> bool, ticks: int, i: nat, budget: nat)
    requires IdleVerdict(cap, action, active, ticks, i, budget).StillBusy? && i <= budget
    ensures
      var last, panes := IdleVerdict(cap, action, active, ticks, i, budget).last, Captured(cap, budget);
      (panes == [] ==> last == "") && (panes != [] ==> last == panes[|panes| - 1])
    decreases budget - i
  {
    hide Captured, IdleAt;
    if i < budget { BusyShowsLast(cap, action, active, ticks, i + 1, budget); }
  }

  // The last n panes are this one, and so is the one before them; only the empty pane
  // needs none before.
  ghost predicate StoodStill(panes: seq<string>, n: nat, pane: string) {
    && n <= |panes|
    && (forall j :: |panes| - n <= j < |panes| ==> panes[j] == pane)
    && (n < |panes| ==> panes[|panes| - n - 1] == pane)
    && (n == |panes| ==> pane == "")
  }

  lemma StillIsStood(quiet: string -> bool, panes: seq<string>, n: nat)
    requires n > 0 && StillFor(quiet, Some(""), panes, n)
    ensures panes != [] && quiet(panes[|panes| - 1]) && StoodStill(panes, n, panes[|panes| - 1])
  {
  }

  // Main result, one way: an idle verdict means that the last idlePollTicks successful
  // captures are all the same inactive, gate-free pane, and that so is the one before
  // them; only an empty pane needs none before.
  lemma IdleMeansStill(
    cap: nat -> Capture, action: string -> Verdict, active: string -> bool, ticks: int, budget: nat)
    requires IdleVerdict(cap, action, active, ticks, 0, budget).Idle?
    ensures
      var v := IdleVerdict(cap, action, active, ticks, 0, budget);
      && v.at < budget && cap(v.at) == Pane(v.pane)
      && !active(v.pane) && !action(v.pane).Keys?
      && StoodStill(Captured(cap, v.at + 1), Max(1, ticks), v.pane)
  {
    hide Captured, Streak, IdleVerdict, StoodStill, StillFor;
    VerdictIsFirst(cap, action, active, ticks, 0, budget);
    var v := IdleVerdict(cap, action, active, ticks, 0, budget);
    var panes := Captured(cap, v.at + 1);
    CapturedStep(cap, v.at);
    StreakMeansStill(Quiet(action, active), Some(""), panes, Max(1, ticks));
    StillIsStood(Quiet(action, active), panes, Max(1, ticks));
  }

  lemma {:induction false} ConstantPaneStreak(
    cap: nat -> Capture, quiet: string -> bool, first: Option<string>, pane: string, k: nat, n: nat)
    requires quiet(pane) && forall i :: k <= i <= k + n ==> cap(i) == Pane(pane)
    ensures Streak(quiet, first, Captured(cap, k + n + 1)) >= n
  {
    if n > 0 {
      ConstantPaneStreak(cap, quiet, first, pane, k, n - 1);
      var before := Captured(cap, k + n);
      assert before == Captured(cap, k + n - 1) + [pane];
      assert Captured(cap, k + n + 1) == before + [pane];
      StreakStep(quiet, first, before, pane);
    }
  }

  // Main result, the other way: a pane that stays capturable, inactive, gate-free and
  // unchanged from iteration k on is reported idle by iteration k + idlePollTicks,
  // when that is within the budget.
  lemma ConstantPaneIsIdle(
    cap: nat -> Capture, action: string -> Verdict, active: string -> bool, ticks: int, budget: nat, pane: string,
    k: nat)
    requires k + Max(1, ticks) < budget
    requires forall i :: 0 <= i < k ==> !cap(i).SessionMissing?
    requires forall i :: k <= i < budget ==> cap(i) == Pane(pane)
    requires !active(pane) && !action(pane).Keys?
    ensures
      var v := IdleVerdict(cap, action, active, ticks, 0, budget);
      v.Idle? && v.at <= k + Max(1, ticks)
  {
    hide IdleVerdict, Streak, Captured;
    ConstantPaneStreak(cap, Quiet(action, active), Some(""), pane, k, Max(1, ticks));
    assert IdleAt(cap, action, active, ticks, k + Max(1, ticks));
    VerdictIsFirst(cap, action, active, ticks, 0, budget);
  }

  // ---- pollUntilReady ------------------------------------------------------------------------

  function SplitLines(s: string): seq<string>
    decreases |s|
  {
    var nl := NextOrEnd('\n', s, 0);
    if nl == |s| then [s] else [s[..nl]] + SplitLines(s[nl + 1..])
  }

  function NotBlank(): string -> bool {
    (line: string) => Trim(line) != ""
  }

  function NonBlankLineCount(pane: string): nat {
    |Filter(NotBlank(), SplitLines(pane))|
  }

  function JoinLines(lines: seq<string>): string
    requires lines != []
  {
    if |lines| == 1 then lines[0] else lines[0] + "\n" + JoinLines(lines[1..])
  }

  lemma SplitFirst(line: string, rest: string)
    requires '\n' !in line
    ensures SplitLines(line + "\n" + rest) == [line] + SplitLines(rest)
  {
    var s := line + "\n" + rest;
    FirstNewline(line, rest);
    assert s[..|line|] == line && s[|line| + 1..] == rest;
  }

  lemma SplitOne(line: string)
    requires '\n' !in line
    ensures SplitLines(line) == [line]
  {
  }

  lemma {:induction false} SplitJoined(lines: seq<string>)
    requires lines != [] && forall l :: l in lines ==> '\n' !in l
    ensures SplitLines(JoinLines(lines)) == lines
  {
    hide SplitLines;
    assert lines[0] in lines;
    if |lines| == 1 {
      SplitOne(lines[0]);
      assert lines == [lines[0]];
    } else {
      SplitJoined(lines[1..]);
      SplitFirst(lines[0], JoinLines(lines[1..]));
      assert lines == [lines[0]] + lines[1..];
    }
  }

  ghost predicate HasInk(line: string) {
    exists i :: 0 <= i < |line| && !IsSpace(line[i])
  }

  lemma {:induction false} TrimStartInk(line: string)
    ensures HasInk(TrimStart(line)) <==> HasInk(line)
    ensures TrimStart(line) != "" ==> HasInk(TrimStart(line))
  {
    if line != "" && IsSpace(line[0]) {
      TrimStartInk(line[1..]);
      if i :| 0 <= i < |line| && !IsSpace(line[i]) { assert line[1..][i - 1] == line[i]; }
      if i :| 0 <= i < |line[1..]| && !IsSpace(line[1..][i]) { assert line[i + 1] == line[1..][i]; }
    }
  }

  lemma {:induction false} TrimEndInk(line: string)
    ensures TrimEnd(line) != "" <==> HasInk(line)
  {
    if line != "" && IsSpace(line[|line| - 1]) {
      TrimEndInk(line[..|line| - 1]);
      if i :| 0 <= i < |line| && !IsSpace(line[i]) { assert line[..|line| - 1][i] == line[i]; }
    }
  }

  ghost function Inked(lines: seq<string>): set<nat> {
    set i: nat | i < |lines| && HasInk(lines[i])
  }

  lemma NotBlankIsInk(line: string)
    ensures NotBlank()(line) <==> HasInk(line)
  {
    TrimStartInk(line);
    TrimEndInk(TrimStart(line));
  }

  lemma InkedStep(lines: seq<string>, line: string)
    ensures |Inked(lines + [line])| == |Inked(lines)| + if HasInk(line) then 1 else 0
  {
    hide HasInk;
    var more := lines + [line];
    assert forall i :: 0 <= i < |lines| ==> more[i] == lines[i];
    assert Inked(more) == Inked(lines) + if HasInk(line) then {|lines|} else {};
  }

  // The lines that count are those with a character that is no space.
  lemma {:induction false} InkIsCounted(lines: seq<string>)
    ensures |Filter(NotBlank(), lines)| == |Inked(lines)|
  {
    if lines == [] {
      assert Inked([]) == {};
    } else {
      hide Filter, NotBlank, Inked, HasInk;
      var n := |lines| - 1;
      InkIsCounted(lines[..n]);
      NotBlankIsInk(lines[n]);
      InkedStep(lines[..n], lines[n]);
      assert lines == lines[..n] + [lines[n]];
      FilterConcat(NotBlank(), lines[..n], [lines[n]]);
      FilterLine(NotBlank(), lines[n]);
    }
  }

  lemma FilterLine(p: string -> bool, line: string)
    ensures Filter(p, [line]) == if p(line) then [line] else []
  {
  }

  lemma NonBlankLinesAreCounted(lines: seq<string>)
    requires lines != [] && forall l :: l in lines ==> '\n' !in l
    ensures NonBlankLineCount(JoinLines(lines)) == |Inked(lines)|
  {
    SplitJoined(lines);
    InkIsCounted(lines);
  }

  datatype StableReady = StableReady(ticks: int, minLines: int)
  datatype ReadyOutcome = ReadyByMarker(at: nat, pane: string) | ReadyByStability(at: nat, pane: string) | NotReady

  predicate StablePane(classify: string -> Verdict, active: string -> bool, pane: string) {
    classify(pane) == Wait && !active(pane)
  }

  function Stable(classify: string -> Verdict, active: string -> bool): string -> bool {
    p => StablePane(classify, active, p)
  }

  predicate StableAt(
    cap: nat -> Capture, classify: string -> Verdict, active: string -> bool, sr: Option<StableReady>,
    alive: nat -> bool, i: nat)
  {
    && cap(i).Pane? && sr.Some?
    && Streak(Stable(classify, active), None, Captured(cap, i + 1)) >= Max(1, sr.value.ticks)
    && NonBlankLineCount(cap(i).text) >= sr.value.minLines
    && alive(i)
  }

  function ReadyVerdict(
    cap: nat -> Capture, classify: string -> Verdict, active: string -> bool, sr: Option<StableReady>,
    alive: nat -> bool, i: nat, budget: nat): ReadyOutcome
    decreases budget - i
  {
    if i >= budget then NotReady
    else if cap(i).Pane? && classify(cap(i).text) == Ready then ReadyByMarker(i, cap(i).text)
    else if StableAt(cap, classify, active, sr, alive, i) then ReadyByStability(i, cap(i).text)
    else ReadyVerdict(cap, classify, active, sr, alive, i + 1, budget)
  }

  method PollUntilReady(
    cap: nat -> Capture, classify: string -> Verdict, active: string -> bool, sr: Option<StableReady>,
    alive: nat -> bool, maxWaitReadyMs: int, pollIntervalMs: int)
    returns (outcome: ReadyOutcome, captures: nat, sent: seq<Keystroke>)
    requires pollIntervalMs > 0
    ensures outcome
         == ReadyVerdict(cap, classify, active, sr, alive, 0, Max(0, CeilDiv(maxWaitReadyMs, pollIntervalMs)))
    ensures captures <= Max(0, CeilDiv(maxWaitReadyMs, pollIntervalMs))
    ensures sent == Typed(classify, cap, captures)
  {
    hide Streak, ReadyVerdict, Typed, Strokes, NonBlankLineCount, Captured, CeilDiv;
    ghost var stablePane := Stable(classify, active);
    var maxIterations := CeilDiv(maxWaitReadyMs, pollIntervalMs);
    ghost var budget := Max(0, maxIterations);
    var lastPane: Option<string> := None;
    var stable := 0;
    captures, sent := 0, [];
    var i := 0;
    TypedNone(classify, cap);
    StreakNone(stablePane, None);
    CapturedNone(cap);
    while i < maxIterations
      invariant 0 <= i <= budget && captures == i
      invariant ReadyVerdict(cap, classify, active, sr, alive, 0, budget)
             == ReadyVerdict(cap, classify, active, sr, alive, i, budget)
      invariant lastPane == if Captured(cap, i) == [] then None else Some(Captured(cap, i)[|Captured(cap, i)| - 1])
      invariant sr.Some? ==> stable == Streak(stablePane, None, Captured(cap, i))
      invariant sent == Typed(classify, cap, i)
    {
      var capture := cap(i);
      captures := captures + 1;
      ReadyStep(cap, classify, active, sr, alive, i, budget);
      CapturedStep(cap, i);
      TypedStep(classify, cap, i);
      if !capture.Pane? {
        i := i + 1;
        continue;
      }
      var pane := capture.text;
      StreakStep(stablePane, None, Captured(cap, i), pane);
      var verdict := classify(pane);
      if verdict == Ready {
        return ReadyByMarker(i, pane), captures, sent;
      }
      if verdict.Keys? {
        sent := SendKeys(i, verdict.keys, sent);
        stable := 0;
      } else if active(pane) {
        stable := 0;
      } else if sr.Some? && lastPane == Some(pane) {
        stable := stable + 1;
        if stable >= sr.value.ticks && NonBlankLineCount(pane) >= sr.value.minLines && alive(i) {
          return ReadyByStability(i, pane), captures, sent;
        }
      } else {
        stable := 0;
      }
      lastPane := Some(pane);
      i := i + 1;
    }
    ReadyEnds(cap, classify, active, sr, alive, budget);
    return NotReady, captures, sent;
  }

  lemma ReadyStep(
    cap: nat -> Capture, classify: string -> Verdict, active: string -> bool, sr: Option<StableReady>,
    alive: nat -> bool, i: nat, budget: nat)
    requires i < budget
    ensures ReadyVerdict(cap, classify, active, sr, alive, i, budget)
         == if cap(i).Pane? && classify(cap(i).text) == Ready then ReadyByMarker(i, cap(i).text)
            else if StableAt(cap, classify, active, sr, alive, i) then ReadyByStability(i, cap(i).text)
            else ReadyVerdict(cap, classify, active, sr, alive, i + 1, budget)
  {
  }

  lemma ReadyEnds(
    cap: nat -> Capture, classify: string -> Verdict, active: string -> bool, sr: Option<StableReady>,
    alive: nat -> bool, budget: nat)
    ensures ReadyVerdict(cap, classify, active, sr, alive, budget, budget) == NotReady
  {
  }

  lemma {:induction false} ReadyIsDecided(
    cap: nat -> Capture, classify: string -> Verdict, active: string -> bool, sr: Option<StableReady>,
    alive: nat -> bool, i: nat, budget: nat)
    ensures
      var v := ReadyVerdict(cap, classify, active, sr, alive, i, budget);
      && (!v.NotReady? ==> i <= v.at < budget && cap(v.at) == Pane(v.pane))
      && (v.ReadyByMarker? ==> classify(v.pane) == Ready)
      && (v.ReadyByStability? ==> classify(v.pane) != Ready && StableAt(cap, classify, active, sr, alive, v.at))
    decreases budget - i
  {
    if i < budget { ReadyIsDecided(cap, classify, active, sr, alive, i + 1, budget); }
  }

  // A pane that satisfies the stability rule is waiting, inactive, and repeated.
  lemma StableMeansRepeated(
    cap: nat -> Capture, classify: string -> Verdict, active: string -> bool, sr: StableReady, alive: nat -> bool,
    i: nat, pane: string)
    requires StableAt(cap, classify, active, Some(sr), alive, i) && cap(i) == Pane(pane)
    ensures classify(pane) == Wait && !active(pane)
    ensures
      var panes := Captured(cap, i + 1);
      && Max(1, sr.ticks) + 1 <= |panes|
      && forall j :: |panes| - (Max(1, sr.ticks) + 1) <= j < |panes| ==> panes[j] == pane
  {
    var panes, n := Captured(cap, i + 1), Max(1, sr.ticks);
    assert panes == Captured(cap, i) + [pane];
    StreakMeansStill(Stable(classify, active), None, panes, n);
    assert Previous(None, panes, |panes| - n) == Some(pane);
  }

  lemma {:induction false} ReadyIsFirst(
    cap: nat -> Capture, classify: string -> Verdict, active: string -> bool, sr: Option<StableReady>,
    alive: nat -> bool, i: nat, budget: nat, j: nat)
    requires i <= j < budget && StableAt(cap, classify, active, sr, alive, j)
    ensures
      var v := ReadyVerdict(cap, classify, active, sr, alive, i, budget);
      !v.NotReady? && v.at <= j
    decreases j - i
  {
    if i < j { ReadyIsFirst(cap, classify, active, sr, alive, i + 1, budget, j); }
  }

  // A pane the classifier calls ready ends the wait at once, and nothing else does but
  // the stability rule: the verdict is taken at the first iteration with either.
  lemma {:induction false} MarkerEndsWait(
    cap: nat -> Capture, classify: string -> Verdict, active: string -> bool, sr: Option<StableReady>,
    alive: nat -> bool, i: nat, budget: nat, j: nat)
    requires i <= j < budget && cap(j).Pane? && classify(cap(j).text) == Ready
    ensures
      var v := ReadyVerdict(cap, classify, active, sr, alive, i, budget);
      && !v.NotReady? && v.at <= j
      && (v.at == j ==> v == ReadyByMarker(j, cap(j).text))
      && (v.ReadyByStability? ==> StableAt(cap, classify, active, sr, alive, v.at))
    decreases j - i
  {
    if i < j { MarkerEndsWait(cap, classify, active, sr, alive, i + 1, budget, j); }
  }

  // A pane that from iteration k on stays capturable, undecided by the classifier,
  // inactive, unchanged, full enough and backed by a live process is taken for ready by
  // iteration k + ticks, when that is within the budget.
  lemma ConstantPaneIsReady(
    cap: nat -> Capture, classify: string -> Verdict, active: string -> bool, sr: StableReady, alive: nat -> bool,
    budget: nat, pane: string, k: nat)
    requires k + Max(1, sr.ticks) < budget
    requires forall i :: k <= i < budget ==> cap(i) == Pane(pane) && alive(i)
    requires classify(pane) == Wait && !active(pane) && NonBlankLineCount(pane) >= sr.minLines
    ensures
      var v := ReadyVerdict(cap, classify, active, Some(sr), alive, 0, budget);
      !v.NotReady? && v.at <= k + Max(1, sr.ticks)
  {
    hide ReadyVerdict, Streak, Captured, NonBlankLineCount;
    ConstantPaneStreak(cap, Stable(classify, active), None, pane, k, Max(1, sr.ticks));
    assert StableAt(cap, classify, active, Some(sr), alive, k + Max(1, sr.ticks));
    ReadyIsFirst(cap, classify, active, Some(sr), alive, 0, budget, k + Max(1, sr.ticks));
  }

  // ---- The runner's classifiers ------------------------------------------------------------------

  // The pane classifiers of an agent: the safety and confirm gates (whose verdict is
  // never Ready), the active-turn marker and the ready marker.
  datatype Classifiers = Classifiers(
    safety: string -> Verdict, confirm: string -> Verdict, activeTurn: string -> bool, readyMarker: string -> bool)

  ghost predicate GatesNeverReady(c: Classifiers) {
    forall p :: c.safety(p) != Ready && c.confirm(p) != Ready
  }

  // waitUntilReady: gates first, then the active turn, then the marker.
  function ReadyClass(c: Classifiers, pane: string): Verdict {
    if c.safety(pane) != Wait then c.safety(pane)
    else if c.confirm(pane) != Wait then c.confirm(pane)
    else if c.activeTurn(pane) then Wait
    else if c.readyMarker(pane) then Ready else Wait
  }

  predicate BlocksInput(c: Classifiers, pane: string) {
    c.activeTurn(pane) || c.confirm(pane) != Wait
  }

  // waitUntilInputReady: a confirm gate is waited out, not answered.
  function InputClass(c: Classifiers, pane: string): Verdict {
    if c.safety(pane) != Wait then c.safety(pane)
    else if BlocksInput(c, pane) then Wait
    else if c.readyMarker(pane) then Ready else Wait
  }

  const MIN_READY_LINES := 3

  function WaitUntilReady(
    c: Classifiers, ticks: int, cap: nat -> Capture, alive: nat -> bool, budget: nat): ReadyOutcome
  {
    ReadyVerdict(cap, p => ReadyClass(c, p), c.activeTurn, Some(StableReady(ticks, MIN_READY_LINES)), alive, 0, budget)
  }

  function WaitUntilInputReady(
    c: Classifiers, ticks: int, cap: nat -> Capture, alive: nat -> bool, budget: nat): ReadyOutcome
  {
    ReadyVerdict(cap, p => InputClass(c, p), p => BlocksInput(c, p), Some(StableReady(ticks, MIN_READY_LINES)), alive,
                 0, budget)
  }

  // The pane is free for input, and there is evidence that the agent is ready: its
  // marker, or enough identical captures of a full enough screen with a live process.
  ghost predicate ReallyReady(
    c: Classifiers, ticks: int, cap: nat -> Capture, alive: nat -> bool, at: nat, pane: string)
  {
    var panes := Captured(cap, at + 1);
    && cap(at) == Pane(pane)
    && !c.activeTurn(pane) && c.safety(pane) == Wait && c.confirm(pane) == Wait
    && (|| c.readyMarker(pane)
        || (&& Max(1, ticks) + 1 <= |panes|
            && (forall j :: |panes| - (Max(1, ticks) + 1) <= j < |panes| ==> panes[j] == pane)
            && NonBlankLineCount(pane) >= 3 && alive(at)))
  }

  // Main result: both waits return only on a pane that is really ready.
  lemma ReadyReturnsAreReal(c: Classifiers, ticks: int, cap: nat -> Capture, alive: nat -> bool, budget: nat)
    requires GatesNeverReady(c)
    ensures
      var v := WaitUntilReady(c, ticks, cap, alive, budget);
      v.NotReady? || (v.at < budget && ReallyReady(c, ticks, cap, alive, v.at, v.pane))
    ensures
      var v := WaitUntilInputReady(c, ticks, cap, alive, budget);
      v.NotReady? || (v.at < budget && ReallyReady(c, ticks, cap, alive, v.at, v.pane))
  {
    var sr := StableReady(ticks, MIN_READY_LINES);
    var classify, input, blocks := p => ReadyClass(c, p), p => InputClass(c, p), p => BlocksInput(c, p);
    ReadyIsDecided(cap, classify, c.activeTurn, Some(sr), alive, 0, budget);
    var v := WaitUntilReady(c, ticks, cap, alive, budget);
    if v.ReadyByStability? {
      StableMeansRepeated(cap, classify, c.activeTurn, sr, alive, v.at, v.pane);
    }
    ReadyIsDecided(cap, input, blocks, Some(sr), alive, 0, budget);
    var u := WaitUntilInputReady(c, ticks, cap, alive, budget);
    if u.ReadyByStability? {
      StableMeansRepeated(cap, input, blocks, sr, alive, u.at, u.pane);
    }
  }

  // waitUntilDone: only safety gates are answered; confirm gates count as activity.
  function DoneClass(c: Classifiers, pane: string): Verdict {
    if c.safety(pane) == Ready then Wait else c.safety(pane)
  }

  function WaitUntilDone(c: Classifiers, ticks: int, cap: nat -> Capture, budget: nat): IdleOutcome {
    IdleVerdict(cap, p => DoneClass(c, p), p => BlocksInput(c, p), ticks, 0, budget)
  }

  // A turn is reported done only on a pane without an active turn and without any gate.
  lemma DoneMeansFree(c: Classifiers, ticks: int, cap: nat -> Capture, budget: nat)
    requires GatesNeverReady(c) && WaitUntilDone(c, ticks, cap, budget).Idle?
    ensures
      var v := WaitUntilDone(c, ticks, cap, budget);
      cap(v.at) == Pane(v.pane) && !c.activeTurn(v.pane) && c.safety(v.pane) == Wait && c.confirm(v.pane) == Wait
  {
    IdleMeansStill(cap, p => DoneClass(c, p), p => BlocksInput(c, p), ticks, budget);
  }

  // A free pane with the ready marker ends both waits when it is captured.
  lemma MarkerPaneIsReady(
    c: Classifiers, ticks: int, cap: nat -> Capture, alive: nat -> bool, budget: nat, pane: string, j: nat)
    requires j < budget && cap(j) == Pane(pane)
    requires !c.activeTurn(pane) && c.safety(pane) == Wait && c.confirm(pane) == Wait && c.readyMarker(pane)
    ensures
      var v := WaitUntilReady(c, ticks, cap, alive, budget);
      !v.NotReady? && v.at <= j && (v.at == j ==> v == ReadyByMarker(j, pane))
    ensures
      var v := WaitUntilInputReady(c, ticks, cap, alive, budget);
      !v.NotReady? && v.at <= j && (v.at == j ==> v == ReadyByMarker(j, pane))
  {
    var sr := Some(StableReady(ticks, MIN_READY_LINES));
    MarkerEndsWait(cap, p => ReadyClass(c, p), c.activeTurn, sr, alive, 0, budget, j);
    MarkerEndsWait(cap, p => InputClass(c, p), p => BlocksInput(c, p), sr, alive, 0, budget, j);
  }

  // Both waits return when a free pane stays put: neither depends on the ready marker.
  lemma FreePaneIsReady(
    c: Classifiers, ticks: int, cap: nat -> Capture, alive: nat -> bool, budget: nat, pane: string, k: nat)
    requires k + Max(1, ticks) < budget
    requires forall i :: k <= i < budget ==> cap(i) == Pane(pane) && alive(i)
    requires !c.activeTurn(pane) && c.safety(pane) == Wait && c.confirm(pane) == Wait && !c.readyMarker(pane)
    requires NonBlankLineCount(pane) >= 3
    ensures
      var v := WaitUntilReady(c, ticks, cap, alive, budget);
      !v.NotReady? && v.at <= k + Max(1, ticks)
    ensures
      var v := WaitUntilInputReady(c, ticks, cap, alive, budget);
      !v.NotReady? && v.at <= k + Max(1, ticks)
  {
    var sr := StableReady(ticks, MIN_READY_LINES);
    ConstantPaneIsReady(cap, p => ReadyClass(c, p), c.activeTurn, sr, alive, budget, pane, k);
    ConstantPaneIsReady(cap, p => InputClass(c, p), p => BlocksInput(c, p), sr, alive, budget, pane, k);
  }

  // A key is typed in an iteration exactly when that iteration captures a gate that asks
  // for it: waitUntilReady answers safety gates and otherwise confirm gates, and
  // waitUntilInputReady and waitUntilDone answer safety gates only.
  lemma KeysOnlyAtGates(c: Classifiers, cap: nat -> Capture, n: nat, at: nat, key: string)
    requires GatesNeverReady(c)
    ensures Keystroke(at, key) in Typed(p => ReadyClass(c, p), cap, n) <==>
              && at < n && cap(at).Pane?
              && var p := cap(at).text;
                 || (c.safety(p).Keys? && key in c.safety(p).keys)
                 || (c.safety(p) == Wait && c.confirm(p).Keys? && key in c.confirm(p).keys)
    ensures Keystroke(at, key) in Typed(p => InputClass(c, p), cap, n) <==>
              && at < n && cap(at).Pane?
              && var p := cap(at).text;
                 c.safety(p).Keys? && key in c.safety(p).keys
    ensures Keystroke(at, key) in Typed(p => DoneClass(c, p), cap, n) <==>
              && at < n && cap(at).Pane?
              && var p := cap(at).text;
                 c.safety(p).Keys? && key in c.safety(p).keys
  {
    TypedExactly(p => ReadyClass(c, p), cap, n, at, key);
    TypedExactly(p => InputClass(c, p), cap, n, at, key);
    TypedExactly(p => DoneClass(c, p), cap, n, at, key);
  }
}
