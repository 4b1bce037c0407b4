# Verification of the bot's coordination core

A Dafny model of the parts of the bot where ordering, time and partial input decide what
happens, with proofs of what those parts promise. It is independent of the TypeScript build:
`dafny verify dfyconfig.toml` checks everything.

| file | models |
|---|---|
| `Basics.dfy`, `Text.dfy` | small vocabulary; JavaScript string operations on sequences |
| `Capacity.dfy` | what usage telemetry says about an agent, and the capacity gate |
| `Admission.dfy` | the ordered gates in front of autonomous work |
| `CapacityStore.dfy` | the per-agent record: observation, leases, last start |
| `Coordinator.dfy` | asking for, holding, rechecking and settling permission to run |
| `AutomationRuns.dfy` | whole runs of the coordinator: serialisation, rate limits, barriers |
| `Executions.dfy` | `execute` over whole runs: leases against executions in flight |
| `Journal.dfy` | the admission journal: forgetful cache, day files, window reads |
| `LaunchLock.dfy` | the per-session launch lock, as interleaved steps |
| `PanePoll.dfy` | the idle and readiness polling loops |
| `ProcessTree.dfy` | the walk over the process table |
| `Composer.dfy` | the chunked terminal line editor |
| `LineDecoder.dfy`, `ControlClient.dfy` | newline-delimited messages; requests and responses by id |
| `Progress.dfy` | the chain of edits to one live message |

Code that updates state in place is a class, or a method with a loop, proved equal to a
function on values; the theorems about runs are about those functions. Interleavings are
sequences of steps, and every theorem about runs holds for all of them.

Where the code differs from its comments, or from what one would expect, the model follows the code:

- A terminal escape sequence cut by the end of a chunk is documented to degrade to a no-op
  (src/tui/composer.ts:39-41). Outside a paste it cancels the prompt: `CutEscapeAlwaysCancels`.
- In front of a leading newline, the start of the line is computed as 1, so Ctrl-A moves forward
  and Down stays put: `LineStartIsRight`, `DownReachesNextLine`.
- `execute` evaluates the caller's settle predicate while building the arguments of `settle`. When
  the predicate throws, nothing is settled and the lease stays until it expires:
  `EndReleasesOwnLease`.
- `revalidate` always discounts one lease. With a lapsed lease it discounts somebody else's, and a
  recheck can be let through where a fresh request is refused: `RecheckCondition` says exactly when,
  `LapsedLeaseHidesAnother` gives a run that gets there.
- The retry time of an exhaustion refusal can lie in the past: `ExhaustionRetryIsProbeTime` says
  exactly when, `RetryTimeGoesStale` gives a run that gets there.
- Recording an observation never looks at when it was made. One that is older than a limit signal
  but recorded after it lifts the barrier: `ExhaustionIsABarrier` says exactly what decides,
  `OlderObservationLiftsBarrier` gives a run that gets there.
- A transition recorded some time after its observation can name a state that no reader sees:
  `TransitionIsWhatReadersSee` says exactly when, `LateRecordingMisleads` gives a run that gets
  there. Recorded at once, it is right: `DerivedIsReportedRight`, `LimitIsReportedRight`.
- Transitions are journalled at the time of their observation, so journal times can go back; a late
  event makes the cache forget newer ones: `AppendRefinesFlatLog` says exactly what it remembers,
  `LateEventForgets` gives the repeat that is written again.
- Overlapping executions of one (source, id) share a lease, and the end of the first takes it from
  the second: `OverlapLosesLease`.
- Closing the control client stops a waiting reconnect timer, but not a connection that is already
  being made: `ReconnectCondition`, `CloseMissesConnection`.
- An error event that nobody listens to throws out of the control client's receive loop and drops
  the responses behind it in the same chunk: `ErrorEventDropsAnswers`, `FragmentsAreInvisible`.
- The journal writes events whose texts are empty or longer than 300 characters, and never reads
  them back: `ReadLosesUnreadable`, `EmptyTextIsLost`. A `|` in a text can let different events
  share a fingerprint: `CollisionCondition` says exactly for which events, `SeparatorMakesCollisions`
  gives a pair.

## Model

| member | source | states |
|---|---|---|
| `AutomationRuns.HeavyWorkSerialized` | src/core/automation/admission.ts:112-119 | in every run, at any time, at most one unexpired lease of an agent was last granted to heavy background or repair work |
| `AutomationRuns.HeavyAdmittedAlone` | src/core/automation/coordinator.ts:164-191 | at the moment such work is admitted no other unexpired lease exists, and right after it its own is the only one |
| `AutomationRuns.UnknownStartIsConservative` | src/core/automation/capacity.ts:143-167 | an unattended admission under unknown capacity by a newcomer is no repair of a repair, finds nothing running, and comes at least 30 minutes after every earlier admission for the agent |
| `AutomationRuns.UnknownStartsAreRateLimited` | src/core/automation/capacity.ts:157-166 | in every run, a window of length W holds at most W / 30 min + 1 such admissions |
| `AutomationRuns.UnknownStartsAreSpaced` | src/core/automation/capacity.ts:157-166 | the times of such admissions lie pairwise at least 30 minutes apart |
| `AutomationRuns.LastStartRemembered` | src/core/automation/capacity-store.ts:90-169 | after an admission, every later world of every run remembers a start no earlier than it |
| `AutomationRuns.StepRecord` | src/core/automation/capacity-store.ts:90-184 | only admissions move an agent's last start, and only observations of the agent change what is known about its capacity |
| `AutomationRuns.StepLeases` | src/core/automation/capacity-store.ts:100-162 | what each event does to the unexpired leases of every agent, exactly |
| `AutomationRuns.StepOccurrence` | src/core/automation/occurrence-window.ts:149-158 | what each event does to a known occurrence, exactly |
| `AutomationRuns.Perform` | src/core/automation/coordinator.ts:110-283 | calling the coordinator for an event has the effect of that event in the runs, on records, occurrences and journal |
| `AutomationRuns.PerformAll` | src/core/automation/coordinator.ts:110-283 | calling it event by event leads to the world and the journal of the run |
| `AutomationRuns.ExhaustionIsABarrier` | src/core/automation/capacity.ts:127-137 | in every run nobody is admitted for an agent if and only if the observation recorded last for it, whenever it was made, is an exhaustion that is not over; then prechecks and rechecks are refused too, owner work included |
| `AutomationRuns.LastRecordedStands` | src/core/automation/capacity-store.ts:90-98 | after every run the stored observation is the one recorded last, whatever its time |
| `AutomationRuns.LimitHoldsUntilNextRecord` | src/core/automation/coordinator.ts:223-247 | a recorded limit refuses everything before its reset, or for ever when the reset is unknown, until something else is recorded for the agent |
| `AutomationRuns.OlderObservationLiftsBarrier` | src/core/automation/capacity-store.ts:90-98 | a run in which an observation made before a limit signal and recorded after it lets heavy work in |
| `AutomationRuns.BarrierLiftsAtReset` | src/core/automation/capacity-store.ts:192-213 | owner work that neither its occurrence nor the host holds back is admitted, prechecked and revalidated again exactly from the reset time on |
| `AutomationRuns.RunKeepsObservation` | src/core/automation/capacity-store.ts:100-169 | leases, releases, reconciliations and starts never disturb the stored observation |
| `AutomationRuns.ClosedOccurrenceNeverRunsAgain` | src/core/automation/admission.ts:47-50 | once an occurrence is settled or superseded, no work for it is admitted or revalidated in any run that leaves planning alone |
| `AutomationRuns.AdmitMarksOwnOccurrence` | src/core/automation/coordinator.ts:185-190 | an admission marks exactly its own occurrence as admitted; a refusal marks none |
| `AutomationRuns.EveryAdmissionIsJournalled` | src/core/automation/coordinator.ts:189-301 | in any stream of offered events that contains a run's entries, at whatever times, each admission of the run is written under its fingerprint at most 15 minutes before it happened, and without the separator in its texts the entry agrees with it on everything but time and occurrence |
| `AutomationRuns.RetryTimeGoesStale` | src/core/automation/capacity.ts:127-137 | a run after which an exhaustion refusal names a retry time in the past |
| `AutomationRuns.LapsedLeaseHidesAnother` | src/core/automation/coordinator.ts:118 | a run (heavy work admitted, light work beside it, a day later) after which the holder of the lapsed lease is let through although a fresh request is refused |
| `AutomationRuns.LateRecordingMisleads` | src/core/automation/coordinator.ts:249-279 | a run after which an exhaustion recorded past its reset is reported as a change that nobody reads |
| `AutomationRuns.OverlapLosesLease` | src/core/automation/coordinator.ts:62-66 | a run with two executions of one (source, id): both are admitted, the first to end leaves the second without a lease, and other heavy work is admitted beside it |
| `Executions.LeasesAreExecutionsInFlight` | src/core/automation/coordinator.ts:202-221 | for executions with distinct (source, id), the unexpired leases are at all times exactly the admitted, unsettled executions under 24 hours old, one lease each |
| `Executions.HeavyExecutionsSerialized` | src/core/automation/admission.ts:112-119 | in every legal run at most one heavy background or repair execution of an agent is unsettled and less than a day old |
| `Executions.RunKeepsInv` | src/core/automation/coordinator.ts:164-221 | every recorded lease belongs to an unsettled execution and expires 24 hours after its admission, across every legal run |
| `Executions.EndReleasesOwnLease` | src/core/automation/coordinator.ts:193-221 | returning or throwing removes the execution's own lease and no other; it stays exactly when the settle predicate threw |
| `Executions.EndSettlesOccurrence` | src/core/automation/coordinator.ts:216-219 | the occurrence is settled exactly when it is the execution's own, known, not superseded, and the operation completed with its predicate agreeing |
| `Executions.DistinctLeases` | src/core/automation/coordinator.ts:62-66 | unsettled executions with different (source, id) hold different leases |
| `Coordinator.LeaseIdInjective` | src/core/automation/coordinator.ts:62-66 | lease ids are equal exactly when source and id are |
| `Coordinator.LeaseIdText` | src/core/automation/coordinator.ts:62-66 | the lease id of each source, spelled out |
| `Coordinator.WhatIsDecided` | src/core/automation/coordinator.ts:121-162 | the gates are asked about the intent's own fields, occurrence and agent, with owned leases discounted; the answer is the resource circuit's or the first closed gate's |
| `Coordinator.LimitFields` | src/core/automation/coordinator.ts:231-243 | a limit is an exhaustion observed now that keeps authentication and percentages |
| `Coordinator.WhatIsWritten` | src/core/automation/coordinator.ts:285-301 | every field of the journal entries of decisions, admissions and settlements |
| `Coordinator.WhatTransitionIsWritten` | src/core/automation/coordinator.ts:263-271 | every field of the journal entry of a transition |
| `Coordinator.RevalidateAsIfFresh` | src/core/automation/coordinator.ts:114-119 | rechecking an unexpired lease decides as a fresh request in the world without that lease and without its start |
| `Coordinator.RecheckCondition` | src/core/automation/coordinator.ts:114-162 | every recheck of a lease id decides as a fresh request without the lease and its start, for all requests and hosts, if and only if the lease is unexpired, or the unexpired leases are not exactly one, or the agent is exhausted or constrained |
| `Coordinator.RevalidateAfterAdmit` | src/core/automation/coordinator.ts:114-191 | right after an admission the same question gets the same answer, so a lease never blocks itself |
| `Coordinator.TransitionIsWhatReadersSee` | src/core/automation/coordinator.ts:249-279 | for an observation recorded at any later time, what is reported is exactly the change readers see then, if and only if the agent was unknown, or the old exhaustion ended in between just when the new one did |
| `Coordinator.DerivedIsReportedRight` | src/core/automation/coordinator.ts:249-279 | what telemetry yields is reported right when recorded at once |
| `Coordinator.LimitIsReportedRight` | src/core/automation/coordinator.ts:223-247 | so is a limit notice with its reset ahead or unknown |
| `Coordinator.ExhaustionRetryIsProbeTime` | src/core/automation/capacity.ts:127-137 | for every recorded observation, a refusal for exhaustion names a retry time that lies ahead exactly while the recorded probe time does |
| `Coordinator.AutonomousWorkCoordinator.DecideWith` | src/core/automation/coordinator.ts:121-162 | deciding leaves the occurrences alone, changes the records at most by making an agent known, answers as the specification, and journals a refusal and nothing else |
| `Coordinator.AutonomousWorkCoordinator.Precheck` | src/core/automation/coordinator.ts:110-112 | a precheck decides for a caller that owns nothing and takes nothing |
| `Coordinator.AutonomousWorkCoordinator.Revalidate` | src/core/automation/coordinator.ts:114-119 | a recheck takes and releases nothing and answers as the specification |
| `Coordinator.AutonomousWorkCoordinator.Admit` | src/core/automation/coordinator.ts:164-191 | the new world, answer and journal entry of an admission; the store is never unavailable at that point |
| `Coordinator.AutonomousWorkCoordinator.Settle` | src/core/automation/coordinator.ts:193-200 | the new world and journal entry of a settlement |
| `Coordinator.AutonomousWorkCoordinator.FinishExecution` | src/core/automation/coordinator.ts:213-220 | the new world and journal entry for every way an operation and its settle predicate can end |
| `Coordinator.AutonomousWorkCoordinator.RecordLimitSignal` | src/core/automation/coordinator.ts:223-247 | a notice makes the agent exhausted keeping what was known of it, and journals and delivers the change; no notice changes nothing |
| `Coordinator.AutonomousWorkCoordinator.RecordCapacityObservation` | src/core/automation/coordinator.ts:249-279 | the new world, the journal entry of a transition, and its delivery to the callback exactly when one was given |
| `Coordinator.AutonomousWorkCoordinator.SettleOccurrence` | src/core/automation/coordinator.ts:281-283 | settling by hand changes one known, not superseded occurrence and no lease |
| `Coordinator.OccurrenceStore.SetStatus` | src/core/automation/occurrence-window.ts:149-158 | superseded and unknown occurrences are never changed, and the result says whether anything was |
| `CapacityStore.StoredResetRefinesWindows` | src/core/automation/capacity-store.ts:192-213 | for every derived exhausted observation and later read, the single stored reset answers as the per-window rule |
| `CapacityStore.ExhaustedRetryTime` | src/core/automation/capacity-store.ts:206-212 | for every recorded exhaustion, the probe time that is read lies ahead exactly while the recorded one does |
| `CapacityStore.DerivedRetryTime` | src/core/automation/capacity-store.ts:206-212 | reading never moves a derived probe time |
| `CapacityStore.LiveWithLease` | src/core/automation/capacity-store.ts:100-127 | taking or refreshing a lease adds that one id to the unexpired leases of that agent and loses none |
| `CapacityStore.LiveWithoutLease` | src/core/automation/capacity-store.ts:136-143 | releasing removes that one id of that agent |
| `CapacityStore.LiveReconciled` | src/core/automation/capacity-store.ts:145-162 | what stays is exactly what was unexpired and, for that agent, out of scope or still active |
| `CapacityStore.LeaseTaken` | src/core/automation/capacity-store.ts:100-127 | a taken lease ends in 24 hours and keeps its start if it was unexpired; expired others go when it is new and stay when it is refreshed |
| `CapacityStore.WhatIsRead` | src/core/automation/capacity-store.ts:192-213 | every field of what is read of an observation, at any time |
| `CapacityStore.AskedIsUnknown` | src/core/automation/capacity-store.ts:171-184 | an unknown agent then reads as unknown since now with nothing running, and nobody else changes |
| `CapacityStore.AgentCapacityStore.Read` | src/core/automation/capacity-store.ts:75-88 | a reader learns the number of unexpired leases and the last start; an absent or foreign record reads as unknown with nothing running, and a recorded state turns unknown exactly when its exhaustion is over |
| `CapacityStore.CountUnexpired` | src/core/automation/capacity-store.ts:84-85 | the filter counts exactly the unexpired leases |
| `CapacityStore.AgentCapacityStore.RecordObservation` | src/core/automation/capacity-store.ts:90-98 | recording keeps leases and last start |
| `CapacityStore.AgentCapacityStore.AcquireLease` | src/core/automation/capacity-store.ts:100-127 | succeeds exactly on a valid record; the new records |
| `CapacityStore.AgentCapacityStore.HasLease` | src/core/automation/capacity-store.ts:129-134 | true exactly for an unexpired lease |
| `CapacityStore.AgentCapacityStore.ReleaseLease` | src/core/automation/capacity-store.ts:136-143 | the new records, and whether a lease was there |
| `CapacityStore.AgentCapacityStore.ReconcileActiveLeases` | src/core/automation/capacity-store.ts:145-162 | the new records; the count is the number of dropped leases, zero without a valid record, and skipping the write when it is zero loses nothing |
| `CapacityStore.AgentCapacityStore.RecordAutonomousStart` | src/core/automation/capacity-store.ts:164-169 | the new records; refused without a valid record |
| `CapacityStore.AgentCapacityStore.EnsureUnknown` | src/core/automation/capacity-store.ts:171-184 | a valid record is left alone, otherwise the agent becomes unknown |
| `Admission.AdmitAutomationWork` | src/core/automation/admission.ts:43-122 | work is allowed exactly when every gate is open, whichever comes first, and then with the reason and incident of the resource circuit; without capacity facts, exactly when the gates that need none are open |
| `Admission.FirstClosedGateIsNamed` | src/core/automation/admission.ts:47-121 | a refusal reports the reason and the exact retry time of the first closed gate in the order, and an incident only for the resource circuit |
| `Admission.NoFactsHoldNothingBack` | src/core/automation/admission.ts:93-120 | without capacity facts the gates answer, reasons and retry times included, as with facts that hold nothing back |
| `Admission.RetryTimesAreTimely` | src/core/automation/admission.ts:59-119 | except for exhaustion no refusal sends its caller into the past, and only the occurrence, quiet hours and exhaustion put it off by more than 30 minutes |
| `Admission.CooldownEndsAtRetry` | src/core/automation/capacity.ts:157-166 | the retry time of a cooldown refusal is the exact time the gate opens |
| `Capacity.DerivedState` | src/core/automation/capacity.ts:59-87 | when each of the four states is derived, in terms of the telemetry numbers, their limits and their age |
| `Capacity.DerivedFields` | src/core/automation/capacity.ts:88-110 | the rest of a derived observation: percentages, authentication, probe time and reason, for every input |
| `Capacity.DerivedReset` | src/core/automation/capacity.ts:88-95 | the stored reset is the last one that a used-up window still waits for |
| `Capacity.WindowsAreTheNumbers` | src/core/automation/capacity.ts:67-78 | the windows used by the other results say the same as the raw numbers |
| `Capacity.CapacityDecisionTable` | src/core/automation/capacity.ts:117-168 | the decision, reason and retry time of the capacity gate for every input |
| `Capacity.DerivedExhaustion` | src/core/automation/capacity.ts:72-95 | exhausted exactly when a used-up window has not reset, and the reset is known exactly when each of those resets is |
| `Capacity.DerivedProbeTime` | src/core/automation/capacity.ts:96-99 | every derived probe time lies in the next 15 minutes and never after a known reset |
| `Capacity.ExhaustedNextProbeAt` | src/core/automation/capacity.ts:33-37 | the probe is due at the earlier of the reset and 15 minutes from now |
| `Journal.AppendRefinesFlatLog` | src/core/automation/admission-events.ts:102-138 | for every sequence of events, an event is dropped if and only if the last written one with its fingerprint is at most 15 minutes older and everything written since lies between it and an hour later; when times do not go back, exactly when one with its fingerprint was appended in the preceding 15 minutes |
| `Journal.Durations` | src/core/automation/admission-events.ts:12-14 | the suppression, cache and file retention times in milliseconds |
| `Journal.LateEventForgets` | src/core/automation/admission-events.ts:102-113 | a late event makes the cache forget a newer one, whose repeat is then written again |
| `Journal.RecentEventsAreKept` | src/core/automation/admission-events.ts:90-100 | for every sequence, an event is on file as long as no later written one puts its day out of the retention, in particular while none is more than 7 days newer |
| `Journal.ReadRefinesFlatLog` | src/core/automation/admission-events.ts:140-186 | for every sequence and window, a read returns exactly the last `limit` surviving readable events of the window by time, with the truncation flag and the count of unreadable records; inside the retention everything written survives, and when times do not go back that is the flat log in order |
| `Journal.WhatIsReturned` | src/core/automation/admission-events.ts:140-186 | each returned event survives, lies in the window and has texts of 1 to 300 characters, and an untruncated read returns all of those |
| `Journal.LastOf` | src/core/automation/admission-events.ts:182 | what is returned of the sorted events is their end, of the given length or all of them |
| `Journal.Limit` | src/core/automation/admission-events.ts:180 | the limit is 200 unless given, and kept between 1 and 2000 |
| `Journal.ReadLosesUnreadable` | src/core/automation/admission-events.ts:43-69 | nothing of a window is lost exactly when all its logged events are readable |
| `Journal.EmptyTextIsLost` | src/core/automation/admission-events.ts:43-69 | an event without a reason is appended and only counted as invalid when it is read back |
| `Journal.LoggedWithin` | src/core/automation/admission-events.ts:115-138 | every event offered, at whatever time, is written under its fingerprint at most 15 minutes before its own time |
| `Journal.JournalCache` | src/core/automation/admission-events.ts:102-138 | after every sequence the cache holds exactly the last written times that nothing written since has made it forget |
| `Journal.JournalFiles` | src/core/automation/admission-events.ts:90-138 | after every sequence each day file holds exactly its day's surviving events, in the order they were written |
| `Journal.SameTimesSameSort` | src/core/automation/admission-events.ts:179 | the stable sort depends only on the order of events within each time |
| `Journal.CollisionCondition` | src/core/automation/admission-events.ts:79-88 | some event that differs in more than time and occurrence has this event's fingerprint if and only if its intent id or its reason can be read as carrying an agent field |
| `Journal.FingerprintsDistinguish` | src/core/automation/admission-events.ts:79-88 | an event without the separator in its texts shares its fingerprint with no other, whatever the other's texts are |
| `Journal.SeparatorMakesCollisions` | src/core/automation/admission-events.ts:79-88 | two different events of one agent that share a fingerprint |
| `Journal.SortIsPermutation` | src/core/automation/admission-events.ts:179 | sorting by time keeps every event as often as it occurs |
| `Journal.AdmissionJournal.CleanOldDedupeEntries` | src/core/automation/admission-events.ts:102-113 | drops exactly the entries from the future or past the retention |
| `Journal.AdmissionJournal.CleanOldFiles` | src/core/automation/admission-events.ts:90-100 | drops exactly the files of days before the cutoff |
| `Journal.AdmissionJournal.Append` | src/core/automation/admission-events.ts:115-138 | the new journal, and whether the event was appended |
| `Journal.AdmissionJournal.Read` | src/core/automation/admission-events.ts:140-186 | reading the filtered, sorted directory listing file by file returns what the specification says about the days of the window |
| `Journal.ListingScans` | src/core/automation/admission-events.ts:149-155 | the files of the filtered, sorted listing hold the records of all days of the range, in order |
| `LaunchLock.BodiesRunOneByOneInJoinOrder` | src/core/agents/runner-base.ts:199-218 | in every interleaving, when a lock body of a session has started, every caller that joined earlier has finished |
| `LaunchLock.LockEntryGoneWithLastCaller` | src/core/agents/runner-base.ts:212-217 | the table has an entry for a session exactly while a caller of it is waiting or running, however bodies end |
| `LaunchLock.CheckThenLaunchIsAtomic` | src/core/agents/runner-base.ts:250-279 | every launch command follows its own caller's finding of no running agent, with no other locked caller acting on the session in between |
| `LaunchLock.BodiesDoTheirWork` | src/core/agents/runner-base.ts:250-279 | in every interleaving a body that returned did exactly its work: it found the agent running, or found it not running, cleared the shell and launched; a restart (lines 378-410) exited first; one that threw did a first part of that |
| `LaunchLock.LockNeverJams` | src/core/agents/runner-base.ts:203-211 | while a caller is unfinished, some caller of its session can move without anything throwing |
| `LaunchLock.LockDrains` | src/core/agents/runner-base.ts:199-218 | once callers stop joining, every continuation is bounded by the steps they have left, and where no caller can go on they have all finished and the table is empty |
| `LaunchLock.RunKeepsInv` | src/core/agents/runner-base.ts:199-279 | the chain, the table and the pane log keep their invariant over every interleaving, restarts included |
| `LaunchLock.LaunchLocks.JoinChain` | src/core/agents/runner-base.ts:203-210 | joining puts the caller behind the session's last one |
| `LaunchLock.LaunchLocks.ReleaseLock` | src/core/agents/runner-base.ts:214-217 | releasing drops the entry only if it is the caller's own |
| `PanePoll.PollUntilIdle` | src/core/agents/pane-poll.ts:156-297 | the loop takes the verdict of the specification over the capture trace, with at most ceil(maxWait / interval) captures, and types what the gates ask for and nothing else |
| `PanePoll.IdleMeansStill` | src/core/agents/pane-poll.ts:246-269 | an idle verdict means the last idlePollTicks successful captures are one inactive, gate-free pane, and so is the one before them, which only an empty pane can do without |
| `PanePoll.ConstantPaneIsIdle` | src/core/agents/pane-poll.ts:190-282 | a pane constant, inactive, gate-free and capturable from iteration k on is reported idle by iteration k + idlePollTicks |
| `PanePoll.VerdictIsFirst` | src/core/agents/pane-poll.ts:190-282 | the verdict is taken at the first deciding iteration and no other |
| `PanePoll.BusyShowsLast` | src/core/agents/pane-poll.ts:284-296 | an exhausted round hands back the last pane captured in it |
| `PanePoll.StreakMeansStill` | src/core/agents/pane-poll.ts:246-280 | the counter has reached k exactly when the last k captures and the one before them are the same quiet pane |
| `PanePoll.PollUntilReady` | src/core/agents/pane-poll.ts:50-148 | the loop takes the verdict of the specification, within the same bound on captures, and types what the classifier asks for |
| `PanePoll.ReadyReturnsAreReal` | src/core/agents/runner-base.ts:281-336 | both readiness waits return only on a pane without active turn or gate that shows the marker, or ticks + 1 identical captures of 3 or more lines with a live process |
| `PanePoll.ConstantPaneIsReady` | src/core/agents/pane-poll.ts:119-140 | a pane undecided, inactive, unchanged, full enough and live from iteration k on is taken for ready by iteration k + ticks |
| `PanePoll.MarkerEndsWait` | src/core/agents/pane-poll.ts:99-106 | a pane classified as ready ends the wait at its iteration, unless it ended before |
| `PanePoll.MarkerPaneIsReady` | src/core/agents/runner-base.ts:293-328 | both readiness waits return when a free pane with the marker is captured |
| `PanePoll.NonBlankLinesAreCounted` | src/core/agents/pane-poll.ts:129 | the lines that count are those with a character that is no space |
| `PanePoll.FreePaneIsReady` | src/core/agents/runner-base.ts:281-336 | both readiness waits return on such a pane without gate or active turn, marker or not |
| `PanePoll.DoneMeansFree` | src/core/agents/runner-base.ts:338-353 | a turn is reported done only on a pane without active turn and without any gate |
| `PanePoll.KeysOnlyAtGates` | src/core/agents/runner-base.ts:293-352 | a key is typed in an iteration exactly when that iteration captures a gate asking for it: the ready wait answers safety and then confirm gates, the other waits safety gates only |
| `PanePoll.CeilDiv` | src/core/agents/pane-poll.ts:63 | the least number of intervals that covers the wait |
| `ProcessTree.FindAgentPid` | src/core/agents/agent-config-resolver.ts:70-94 | terminates on every table, cycles included; null exactly when no reachable process matches, otherwise a match of minimal depth |
| `ProcessTree.IndexRows` | src/core/agents/agent-config-resolver.ts:75-82 | the maps give every pid its children in order and its last command |
| `ProcessTree.LastRowGivesCommand` | src/core/agents/agent-config-resolver.ts:77-78 | the command of a pid is that of its last row |
| `ProcessTree.ChildListInOrder` | src/core/agents/agent-config-resolver.ts:79-81 | children come in the order of the table |
| `ProcessTree.ChildOfOneRow` | src/core/agents/agent-config-resolver.ts:79-81 | a row makes its pid a child of its parent and of nobody else |
| `ProcessTree.NoAgentAbove` | src/core/agents/agent-config-resolver.ts:83-93 | at every moment of the walk no matching process lies above the front of the queue |
| `Composer.ComposerStep` | src/tui/composer.ts:42-143 | the loop computes the editor's specification, with the cursor always in the text |
| `Composer.BytesThatEnd` | src/tui/composer.ts:71-74 | carriage return and line feed submit, Ctrl-C (lines 130-133) cancels, with the text as it is and whatever follows |
| `Composer.BareEscapeCancels` | src/tui/composer.ts:75-111 | an escape with nothing known behind it cancels |
| `Composer.BytesThatInsert` | src/tui/composer.ts:65-80 | escape with a line end inserts a newline, a printable character itself, and the start marker opens a paste |
| `Composer.BytesThatMove` | src/tui/composer.ts:81-108 | the arrow sequences move the cursor right, left, up and down |
| `Composer.BytesThatGoToEnds` | src/tui/composer.ts:120-129 | Ctrl-A and Ctrl-E go to the ends of the cursor's line, with the one exception of a leading newline |
| `Composer.BytesThatErase` | src/tui/composer.ts:112-119 | both erase bytes remove the character before the cursor; other control bytes do nothing |
| `Composer.InsertedText` | src/tui/composer.ts:46-49 | inserting puts the text at the cursor and the cursor behind it |
| `Composer.FeedInChunks` | src/tui/composer.ts:54-64 | feeding two chunks is feeding their concatenation, unless the first ended the prompt or an end-of-paste marker is cut |
| `Composer.ChunksAgreeUnlessMarkerCut` | src/tui/composer.ts:54-64 | that condition is exact when no whole end-of-paste marker follows |
| `Composer.CutEscapeAlwaysCancels` | src/tui/composer.ts:75-111 | outside a paste a cut escape sequence always shows up as a cancel, with what was typed before it kept |
| `Composer.CutPasteEndIsText` | src/tui/composer.ts:54-59 | an end-of-paste marker cut anywhere is pasted as text and does not end the paste |
| `Composer.PasteIsVerbatim` | src/tui/composer.ts:54-69 | a bracketed paste, chunked anywhere outside its markers, inserts exactly its text and neither submits nor cancels |
| `Composer.LineStartIsRight` | src/tui/composer.ts:33 | the start of the cursor's line is found exactly when the cursor is not in front of a leading newline |
| `Composer.LineEndIsRight` | src/tui/composer.ts:34-37 | the end of the cursor's line is found |
| `Composer.UpReachesLineAbove` | src/tui/composer.ts:91-98 | Up keeps the column, or goes to the end of a shorter line, always |
| `Composer.DownReachesNextLine` | src/tui/composer.ts:99-105 | Down does the same exactly when the cursor is not in front of a leading newline, where it stays put |
| `Composer.EraseUndoesTyping` | src/tui/composer.ts:112-138 | erasing takes back a typed character anywhere in the text |
| `Composer.TypingUndoesErase` | src/tui/composer.ts:112-138 | typing an erased character again restores the text |
| `Composer.LeftUndoesRight` | src/tui/composer.ts:81-90 | Left undoes Right exactly before the end of the text (or in an empty one), and Right undoes Left |
| `LineDecoder.ChunkingDoesNotMatter` | src/adapters/control/protocol.ts:119-139 | for every chunking, the outputs are the parses of the non-blank well-formed complete lines and the buffer is the newline-free rest |
| `LineDecoder.WhatALineYields` | src/adapters/control/protocol.ts:126-134 | a line yields the parse of the text between the spaces around it, and nothing when it is blank or malformed |
| `LineDecoder.DecodeInvertsEncode` | src/adapters/control/protocol.ts:110-139 | encoded messages cut anywhere come back in order and leave nothing behind |
| `LineDecoder.LinesAndTail` | src/adapters/control/protocol.ts:124-135 | there is only one way to cut a buffer into terminated lines and a rest |
| `LineDecoder.MoreBytes` | src/adapters/control/protocol.ts:122-135 | more bytes only add lines after those already complete |
| `LineDecoder.Decoder.Feed` | src/adapters/control/protocol.ts:121-138 | the loop yields the specified messages and buffer |
| `ControlClient.RequestsPendOrSettleOnce` | src/adapters/control/client.ts:142-177 | in every run of requests, responses, timeouts, write failures, disconnects and reconnects the accepted ids are the disjoint union of pending and settled ones, each settled at most once |
| `ControlClient.AnswersReachTheirRequests` | src/adapters/control/client.ts:113-126 | a chunk settles a pending request with the first response, among the messages before one that throws, that carries its id, and leaves it pending without one |
| `ControlClient.AnswersSettleTheirRequests` | src/adapters/control/client.ts:115-121 | the first handled response with the id resolves its request with its data when ok, and rejects it with its error when not |
| `ControlClient.FailuresReject` | src/adapters/control/client.ts:153-165 | a timeout or a failed write rejects a pending request and leaves any other alone |
| `ControlClient.RequestsWait` | src/adapters/control/client.ts:147-175 | an accepted request takes the next id and waits, or is rejected at once when its write throws; without a connection none is accepted |
| `ControlClient.OnlyAnsweredAreSettled` | src/adapters/control/client.ts:113-126 | a chunk settles only requests answered by its handled messages |
| `ControlClient.ErrorEventDropsAnswers` | src/adapters/control/client.ts:121-124 | a response behind an event in one chunk is lost exactly when it is an error event and nobody listens to those |
| `ControlClient.HistoryOnlyGrows` | src/adapters/control/client.ts:83-177 | nothing settled is ever changed, and ids never go back |
| `ControlClient.FreshIds` | src/adapters/control/client.ts:151 | the next id was never used before |
| `ControlClient.ClosedKeepsInv` | src/adapters/control/client.ts:87-96 | a close leaves nothing pending, rejects every pending request as disconnected and loses none |
| `ControlClient.CloseRejectsAll` | src/adapters/control/client.ts:89-92 | the pending requests are rejected in the order of their ids |
| `ControlClient.ConnectionsKeepTheTable` | src/adapters/control/client.ts:83-111 | what opening, closing and retrying do to the connection, the buffer and the timer, and that they leave the table alone |
| `ControlClient.FragmentsAreInvisible` | src/adapters/control/client.ts:113-126 | receiving two chunks is receiving them glued together, if and only if nothing in the first throws or nothing handled in the second answers a pending request |
| `ControlClient.Client.Req` | src/adapters/control/client.ts:142-177 | the new state, and the id of an accepted request |
| `ControlClient.Client.SettlePending` | src/adapters/control/client.ts:159-165 | settles a pending request once and leaves others alone |
| `ControlClient.Client.OnData` | src/adapters/control/client.ts:113-126 | the loop over the decoded messages delivers each as specified, and throws exactly at an error event that nobody listens to |
| `ControlClient.Client.OnSocketClose` | src/adapters/control/client.ts:87-96 | rejects exactly the pending requests in order, and sets the reconnect timer unless closing |
| `ControlClient.Client.OnConnected` | src/adapters/control/client.ts:72-85 | a first connection keeps buffer and table |
| `ControlClient.Client.Shut` | src/adapters/control/client.ts:385-388 | closing stops later timers and settles nothing by itself |
| `ControlClient.Client.OnError` | src/adapters/control/client.ts:59 | attaching or removing a listener to error events changes nothing else |
| `ControlClient.Client.OnAttempt` | src/adapters/control/client.ts:99-111 | the timer starts a connection unless the client is closing |
| `ControlClient.Client.OnAttemptFailed` | src/adapters/control/client.ts:108 | a failed attempt sets the timer again |
| `ControlClient.Client.OnReconnected` | src/adapters/control/client.ts:103-107 | a reconnect starts with an empty line buffer and keeps the table |
| `ControlClient.ReconnectCondition` | src/adapters/control/client.ts:87-111 | left alone, a client can be connected again exactly when it is, or a reconnect is under way, or its timer runs and it is not closed |
| `ControlClient.CloseMissesConnection` | src/adapters/control/client.ts:99-111 | a run after which a closed client is connected |
| `ControlClient.KeepsTrying` | src/adapters/control/client.ts:95-111 | a client that lost its connection keeps trying until it is back or closed |
| `Progress.EditsReachApiInCallOrder` | src/adapters/telegram/progress.ts:78-90 | in every interleaving the API receives the edits in call order and never one while another is unanswered |
| `Progress.FinalTextWins` | src/adapters/telegram/progress.ts:92-131 | once finalize reports success the message shows, for ever after, the text finalize was called with, or its plain form after a parse error of the formatted one |
| `Progress.CallsAreTheTrace` | src/adapters/telegram/progress.ts:92-117 | in every run the edits called for are exactly the ticks before finalize in order, the finalize text, and its plain form only after a parse error of a formatted one |
| `Progress.ChainNeverStuck` | src/adapters/telegram/progress.ts:84-88 | while an edit is unanswered or its chain unsettled, something can move on without failing |
| `Progress.EverythingGetsDone` | src/adapters/telegram/progress.ts:78-131 | once no calls are made, the remaining steps are bounded, and where none can be taken every edit is answered and finalize has reported |
| `Progress.FailureMeansNotLanded` | src/adapters/telegram/progress.ts:111-130 | a failed report means the last edit failed, and was not one that has a plain fallback left |
| `Progress.RunInOrder` | src/adapters/telegram/progress.ts:79-90 | sent edits are a prefix of the calls, all but the last answered, in every run |
| `Progress.ProgressHandle.ChainEdit` | src/adapters/telegram/progress.ts:79-90 | an edit is queued behind the current chain and becomes its end |
| `Progress.ProgressHandle.Update` | src/adapters/telegram/progress.ts:92-101 | a tick after finalize changes nothing |
| `Progress.ProgressHandle.StartFinalize` | src/adapters/telegram/progress.ts:103-109 | finalize stops later ticks and queues its edit |
| `Progress.ProgressHandle.AfterAnswer` | src/adapters/telegram/progress.ts:109-130 | what finalize reports or retries for each answer |

## Left out

- Time: the clock is read once per coordinator call and never goes back; leases that expire between two reads of one call, and clock rollback, are not modelled. Telemetry resets are integer seconds or absent, times integer milliseconds. A percentage or `updatedAt` that is not finite is an absent one; a reset that is not finite is not modelled (the code takes a NaN reset for passed).
- Records: the record files are maps of valid records; corrupt records and the file handling of `JsonMapStore` are not part of this model.
- Parameters: quiet hours, the resource circuit, the text parser for official limits (its three outcomes are an input) and the pane and process classifiers are arbitrary functions or inputs.
- Occurrences: planning, ledger reconciliation and pruning appear as arbitrary changes of the occurrence map.
- Coordinator side effects: what a transition callback does, and its failures, which the code ignores; the journal is told the time of the call.
- `execute` is split into `Admit` and `FinishExecution`, with any other work between them.
- Executions.LeasesAreExecutionsInFlight: admissions and settlements by hand are included. It assumes that requests with the same (source, id) do not overlap, because in the code they share one lease, that a lease is not settled again while a later request holds it, and that a reconciliation knows the executions under way. It starts from a world without leases.
- AutomationRuns.EveryAdmissionIsJournalled: assumes that journal writes succeed.
- Composer.FeedInChunks: when a marker is cut and a whole one follows later, the results may or may not agree, because later keys can erase the difference; only the case without a later marker has an exact condition.
- Journal: write failures, the failure of only one of the two stores, and unreadable directories; dates are day numbers (names sort as days do for the years 0 to 9999); a file is the sequence of its records, so parsing of a line is the `Readable` test.
- Launch lock: one runner instance only (the lock is per instance), session names already resolved; the exit that `gracefulRestart` and `exit` type outside the lock is a step that may happen at any time; which session id is resumed is not modelled.
- Polling: sleeping and logging; a failing key press or liveness probe; classifiers are functions of the pane text, and trimming of the processed output is left out. An idlePollTicks of zero or less behaves as one, as in the code.
- Sockets: what an exception that leaves the receive loop does to the process, and listeners that throw themselves; one connection at a time, whose opening and closing are steps; the timers of requests and of reconnects are steps that may fire at any time; choosing among socket addresses.
- Progress: promises are steps of the promise engine; a rejected edit may have been applied when its rejection arrives but not later; finalize is called once, as its callers do.
- Text: JavaScript strings are sequences of characters instead of UTF-16 code units.
- Chat adapters, cards, rendering, CLI registration, setup wizards, the resource guardian, power policy and the supervisors: user interface, plumbing, or components that the parts above meet only through parameters.
