# Learning-lab platform: intervention control, survival statistics and session slots

A Dafny model of three parts of the platform's backend, with proofs of what they are meant to
guarantee. `dafny verify dfyconfig.toml` checks everything.

**Intervention control.** A monitor observes a learner's process regime cycle by cycle. A dwell tracker
says how long the regime has lasted, a control law decides whether to intervene, and a micro-randomised
trial keeps a table of decision points. Offline, a simulator replays the same policy over logs, a
criterion J prices it, and a coordinate descent picks the dwell thresholds. `process_state.dfy`,
`control_law.dfy`, `live_loop.dfy`, `randomised_trial.dfy`, `simulation.dfy`, `criterion.dfy`,
`optimiser.dfy` and `harness.dfy` cover this part. Main results: the simulator agrees with the live loop
on every run exactly when both look up thresholds alike; its greedy firing is the longest schedule the
cooldown allows; the spell scan finds exactly the maximal bad runs and their durations add up to the bad
time computed by a separate loop; the false interventions are counted exactly on those runs and never
outnumber the interventions; the threshold search returns the first minimiser of each coordinate step
and is never worse than where it started; the trial's table is, row by row, a function of the inputs.

**Survival statistics and rater agreement.** `survival.dfy` proves that the Kaplan-Meier loop never
divides by zero and yields a survival curve, that the median is the least time with a reach rate above
one half, that with any censoring survival drops across an exit time by exactly the share of those at
risk who have an event there, that without censoring the restricted mean is the plain average of the
capped durations and the reach rate the plain share, and that with any censoring the restricted mean
grows at a rate between the two survival probabilities. `kappa.dfy` pins Cohen's kappa by two counts,
agreeing items and matching pairs, and proves that it lies in [-1, 1], is 1 exactly on full agreement,
and takes its shortcut exactly when everybody used one and the same label.

**Session slots.** `queue.dfy` models the Redis counters and waiting lists. `slot_protocol.dfy` is a
state machine of any number of launch requests, each with a program counter, interleaved with lost
launches and session ends, repeated ones included; `slot_safety.dfy` proves for every state of every run
that lab counters equal the slots in use, add up to the global counter and stay within the caps, that no
release is ever clamped, that no learner has two live sessions on one lab or more live sessions than
allowed, and that the waiting lists are free of duplicates and overtaking. (That is about the lists only:
acquiring a slot never looks at them, so a fresh arrival may take a free slot before those who wait.)
`session_ends.dfy` says exactly when ending a row is safe for good. Ending a row under a running launch
does no harm at once; the launch's own next steps do it, by reviving the row without a slot or by releasing
the slot a second time. No check on the tables can tell such a row from one whose launch was lost; as long
as none is lost the row's status decides. `stray_release.dfy` runs the protocol into a state in which ending
a failed row frees another learner's slot. `launch.dfy` carries one request through the endpoint from
arrival to answer.

Methods and classes follow the source's loops and objects; each is tied to a function on values, and
the theorems are about those functions. `sequences.dfy` holds sorting and small shared helpers.

## Model

| member | source | states |
|---|---|---|
| ProcessState.RunStart | backend/analytics/runtime/process_state.py:40-46 | the instant dwell counts from opens the maximal run of equal regimes around the current observation |
| ProcessState.DwellTracker.Observe | backend/analytics/runtime/process_state.py:40-46 | the incremental tracker reports, after any history, the time since the current maximal run of equal regimes began |
| ProcessState.ZeroDwellIsRegimeChange | backend/analytics/runtime/monitor.py:639-640 | on a strictly increasing clock dwell is never negative and is zero if and only if the regime has just changed |
| ControlLaw.ShouldIntervene | backend/analytics/runtime/control_law.py:32-76 | a cycle is a decision point iff the bad regime has reached the threshold in force and the monitor's switch and cooldown check passes; whether and why it is skipped depends on neither arm nor draw; an open arm then withholds whatever the draw, a closed arm follows the draw |
| ControlLaw.SecondCooldownCheckPasses | backend/analytics/runtime/monitor.py:617-624 | the repeated cooldown check, on its own later clock reading, never overrules a decision to intervene; the cycles of both monitors rely on it |
| Simulation.SimulateInterventions | backend/analytics/thresholds.py:14-48 | the loop returns the firing times of the policy on the log |
| Simulation.FiringIsASchedule | backend/analytics/thresholds.py:28-48 | what fires is an admissible schedule: eligible samples in order, each a cooldown after the one before |
| Simulation.GreedyStaysAhead | backend/analytics/thresholds.py:28-48 | at equal length the policy has fired last no later than any other admissible schedule |
| Simulation.GreedyIsOptimal | backend/analytics/thresholds.py:28-48 | no admissible schedule on a time-ordered log is longer than what the policy fires |
| Simulation.StricterPolicyFiresLess | backend/analytics/thresholds.py:33-43 | raising thresholds, dropping regimes or lengthening the cooldown never adds an intervention |
| Simulation.FirstFireIsFirstEligible | backend/analytics/thresholds.py:28-48 | the first firing is the earliest eligible sample, whatever the cooldown, and there is none only if nothing is eligible |
| LiveLoop.SessionMonitor.RunAnalysis | backend/analytics/runtime/monitor.py:217-248 | one cycle, with the cooldown checked twice on two clock readings, extends the run by one observation and keeps the monitor's stamp and events equal to the fold of the control law over the whole run |
| LiveLoop.ActsIffDue | backend/analytics/runtime/monitor.py:222-248 | on a clock that does not run back a cycle is acted on iff it is due: a bad regime lasted to its threshold (zero if none is configured), interventions are on, everything acted on before is a cooldown away, and in the closed arm the gates agree |
| LiveLoop.EventsTellOfActs | backend/analytics/runtime/monitor.py:232-248 | the events are the acted cycles, one each, at their times, of the kind the arm calls for; the cooldown runs from the last one |
| LiveLoop.LiveMatchesSimulator | backend/analytics/runtime/monitor.py:222-248 | in the closed arm, with every act authorised, the cycles that intervene are exactly the positions the simulator picks from the log |
| LiveLoop.SimulatorAgreesIffSameThresholds | backend/analytics/thresholds.py:19-43 | live loop and simulator agree on every run if and only if every bad regime has a threshold while interventions are enabled, or none has one while they are disabled |
| LiveLoop.UnregulatedRegimeParts | backend/analytics/runtime/control_law.py:56-58 | an enabled configuration without a threshold for some bad regime makes the two disagree on a one-cycle run |
| LiveLoop.SimulatorIgnoresTheSwitch | backend/analytics/runtime/control_law.py:62-63 | a disabled configuration with a threshold makes the two disagree on a two-cycle run |
| LiveLoop.OpenArmShadowsClosedArm | backend/analytics/runtime/monitor.py:232-248 | the open arm records a would-be intervention on exactly the cycles, at exactly the times, at which an authorised closed arm intervenes, and never intervenes |
| LiveLoop.RefusalsOnlyLoseInterventions | backend/analytics/runtime/monitor.py:237-248 | whatever the act gates refuse, the live loop never intervenes more often than the simulator predicts |
| RandomisedTrial.TrialMonitor.RunCycle | backend/analytics/runtime/monitor.py:636-681 | one trial cycle, keyed on dwell being zero, has the effect of closing and opening spells on a change of regime and then deciding |
| RandomisedTrial.TrialMonitor.MrtStep | backend/analytics/runtime/monitor.py:651-681 | the decision part of a trial cycle: row written, cooldown stamp moved, nothing else touched |
| RandomisedTrial.TrialMonitor.MrtCloseSpell | backend/analytics/runtime/monitor.py:714-729 | closing a spell stamps exactly the rows whose ids are open and clears the spell |
| RandomisedTrial.TrialMonitor.MrtOpenSpell | backend/analytics/runtime/monitor.py:683-690 | opening a spell gives it a fresh identifier, a jittered threshold and no open rows |
| RandomisedTrial.TrialMonitor.MrtRecordDecision | backend/analytics/runtime/monitor.py:692-712 | a decision adds one row carrying the spell's identifier and threshold and adds its id to the open ones |
| RandomisedTrial.JitterStaysInBand | backend/analytics/runtime/monitor.py:683-690 | the jittered threshold lies within the configured fraction of its base, for any base and any fraction |
| RandomisedTrial.EveryRunKeepsTheBand | backend/analytics/runtime/monitor.py:683-712 | over any run every recorded decision carries a threshold within the jitter band of its regime's configured one |
| RandomisedTrial.RecordsOnlyWhenDue | backend/analytics/runtime/monitor.py:651-681 | a cycle records at most one decision point, only at or above the spell's threshold and after the cooldown; the open arm always withholds, the closed arm follows the draw; the cooldown restarts on a withheld or delivered one only |
| RandomisedTrial.DecideRecordsIffDue | backend/analytics/runtime/monitor.py:651-681 | for an open spell a cycle writes exactly one row, moves the stamp accordingly and changes nothing else iff the bad regime has reached the spell's threshold, interventions are on and the cooldown has run; otherwise nothing happens at all |
| RandomisedTrial.RecordedIffDue | backend/analytics/runtime/monitor.py:636-729 | over whole runs, from the inputs alone: the last cycle adds one row iff it is due, given by the threshold drawn when the present stretch began and by the cooldown after every withheld or delivered row; every field of the new row is told by the inputs; it shares its spell with exactly the rows of the stretch; older rows change only by the exit time of a change of regime |
| RandomisedTrial.RunReflects | backend/analytics/runtime/monitor.py:645-649 | after any run the monitor's stretch, spell and threshold are those the inputs give: configured base times the factor drawn at the opening of the stretch |
| RandomisedTrial.ObserveKeepsBookkeeping | backend/analytics/runtime/monitor.py:645-649 | a change of regime keeps the bookkeeping invariant |
| RandomisedTrial.DecideKeepsBookkeeping | backend/analytics/runtime/monitor.py:651-681 | a decision keeps the bookkeeping invariant |
| RandomisedTrial.EveryRunKeepsBookkeeping | backend/analytics/runtime/monitor.py:636-729 | under any configuration, from any orderly state: a spell is open iff the regime is bad; unclosed rows are exactly the open ids of the current spell; rows of one spell share regime, threshold and exit; every row's dwell reached its threshold and its exit, if any, is later; a withheld or delivered point is a cooldown before every later one |
| RandomisedTrial.EveryFinishedRunIsAccountedFor | backend/sessions/services/lifecycle.py:236-237 | if the monitor is stopped before censoring, every row has exactly one of an exit time and the censored flag, and the censored rows are those of the spell still open |
| RandomisedTrial.MonitorOutlivingCensoring | backend/sessions/services/state.py:31-37 | if the monitor runs on after censoring, as after the orphan sweep, that still holds at the end iff the open decisions are then the ones that were open at censoring |
| RandomisedTrial.AccountedIffNothingHappens | backend/sessions/services/state.py:31-37 | in terms of what happens after censoring: while the regime stays, iff nothing more is recorded; once it changes, iff nothing was open at censoring and nothing recorded since is open at the end |
| RandomisedTrial.RunKeepsFlags | backend/analytics/runtime/monitor.py:692-729 | the monitor neither sets nor clears the censored flag, on old rows or new ones |
| RandomisedTrial.TrialMonitor.CensorOpenDecisions | backend/analytics/runtime/mrt.py:9-24 | row by row: flags every row without an exit time and changes nothing else; the count it returns is the size of the set of such rows |
| Criterion.ScanSpells | backend/analytics/criterion.py:84-111 | the nested scan loop terminates and returns the list of spells, each with its bounds, duration, recovery and intervention flags |
| Criterion.BadRunsAreTheMaximalRuns | backend/analytics/criterion.py:87-111 | the scan yields all maximal bad runs opening before the last sample, nothing else, in order and disjoint |
| Criterion.SpellsFollowRuns | backend/analytics/criterion.py:91-108 | the recorded spells are, one for one, those maximal runs |
| Criterion.SpellsSumToBadDuration | backend/analytics/criterion.py:138-143 | the durations of the scanned runs add up to the bad time that the separate left-edge loop computes |
| Criterion.SamplesUpToIsPosition | backend/analytics/criterion.py:61 | on a time-ordered log the count of stamps up to t is the bisection point: exactly the samples before it are not later than t |
| Criterion.InterventionsOutsideBadRegime | backend/analytics/criterion.py:50-66 | the loop counts the interventions that fell on a good sample by the left-edge rule, none before the first sample |
| Criterion.CountOutsideIsCardinality | backend/analytics/criterion.py:59-66 | that count is the size of the set of such interventions |
| Criterion.InsideASpellOrOutsideBad | backend/analytics/criterion.py:69-76 | while the session lasts an intervention falls inside a scanned spell or outside any bad regime, never both and never neither: the two kinds of false alarm are disjoint |
| Criterion.EachHitRunOwnsAnIntervention | backend/analytics/criterion.py:99 | the runs that contain an intervention are at most as many as the interventions inside runs |
| Criterion.FalseAlarmsAreInterventions | backend/analytics/criterion.py:80-124 | the number of false interventions never exceeds the number of interventions |
| Criterion.OutsideBadIsOnGood | backend/analytics/criterion.py:50-66 | an intervention counts as outside any bad regime iff the sample in force at its time is a good one |
| Criterion.HastySpellsAreCutShort | backend/analytics/criterion.py:113-123 | kind (b) is the number of maximal runs that an intervention fell into, that end on a good sample and that last strictly less than the median of the uninterrupted ones ending on a good sample; zero if there are none of those |
| Criterion.FalseAlarmsCounted | backend/analytics/criterion.py:69-124 | the whole count over samples and maximal runs: interventions that fell on a good sample, plus the runs cut shorter than the median self-exit |
| Criterion.CutsBelowMedianAreUnique | backend/analytics/criterion.py:113-123 | that second number is determined by its description |
| Sequences.RankIsUnique | backend/analytics/criterion.py:118 | at most one value has a given rank |
| Sequences.MedianIsByRank | backend/analytics/criterion.py:118 | the median is the mean of the elements of the two middle ranks |
| Criterion.ComputeFalse | backend/analytics/criterion.py:69-124 | the whole routine computes the count that FalseAlarmsCounted pins |
| Criterion.CostPerUnit | backend/analytics/criterion.py:146-150 | what one more second of bad time, one more intervention and one more false alarm add to J |
| Criterion.ComputeJ | backend/analytics/criterion.py:127-151 | the loop and the sum give J and its three terms; bad time may be taken from another stream, false alarms never are |
| Optimiser.TruncateAtInterventions | backend/analytics/thresholds.py:51-69 | the loop over sorted stamps is the samplewise replacement of bad samples at or after some intervention |
| Optimiser.TruncateAt | backend/analytics/thresholds.py:61-69 | sample by sample: bad samples at or after some intervention become productive ones of zero dwell, all others stay |
| Optimiser.TruncationClosedForm | backend/analytics/thresholds.py:51-69 | the bad time of the truncated stream is the bad time of gaps opening strictly before the first intervention |
| Optimiser.LaterCutChargesMore | backend/analytics/thresholds.py:54-56 | a later first intervention leaves at least as much bad time, never more than the untruncated log |
| Optimiser.StricterPolicyLeavesMoreBadTime | backend/analytics/thresholds.py:101-111 | raising thresholds never lowers the truncated bad time, also when firing is read off a separate detection stream |
| Optimiser.ComputeTotalJ | backend/analytics/thresholds.py:82-112 | the loop adds up the sessions' J, firing read off detections when there are any |
| Optimiser.SessionJReads | backend/analytics/thresholds.py:101-111 | firing is read off the detections if there are any, else off the samples; bad time off the counterfactual of the samples, false alarms off the samples |
| Optimiser.TotalJSnoc | backend/analytics/thresholds.py:100-112 | the total is the sum over the sessions |
| Optimiser.SilenceCostsBadTime | backend/analytics/thresholds.py:51-79 | a policy that never fires pays for the bad time of the log alone, under either counterfactual |
| Optimiser.NoEffectMakesSilenceOptimal | backend/analytics/thresholds.py:72-79 | if interventions change nothing, thresholds that never fire minimise the total criterion |
| Optimiser.BestCandidate | backend/analytics/thresholds.py:130-137 | the inner loop returns the first of the cheapest candidates, all other thresholds as they stand |
| Optimiser.DeriveTk | backend/analytics/thresholds.py:115-141 | the sweep succeeds iff no candidate list is empty, and each regime's choice is the first minimiser given the choices locked before it |
| Optimiser.DescentNeverLoses | backend/analytics/thresholds.py:129-139 | after every step of the sweep the total criterion is no worse than at the first-of-grid thresholds |
| Optimiser.DerivedBeatsFirstOfGrid | backend/analytics/thresholds.py:123-141 | the returned thresholds are those the sweep ended on and cost no more than the first-of-grid ones |
| Optimiser.DerivedCostsNoMore | backend/analytics/thresholds.py:123-141 | the same, in terms of the total criterion at the caller's costs and cooldown |
| Harness.IdentifierTrace | backend/analytics/metrics/harness.py:32-44 | the loop around a fresh tracker produces every snapshot with its time since the start of its maximal run |
| Harness.RunIdentifier | backend/analytics/metrics/harness.py:22-29 | the search returns the first sample of the trace that crosses the threshold |
| Harness.FirstCrossingIsEarliest | backend/analytics/metrics/harness.py:26-29 | a detection is the earliest crossing sample, and there is none only if no sample crosses |
| Harness.DetectionIsAntitone | backend/analytics/metrics/harness.py:22-44 | a detection at a higher threshold implies one, no later, at a lower threshold |
| Harness.FewerFalseAlarmsAtHigherThreshold | backend/analytics/metrics/metrics.py:70-74 | the number of false alarms on normal scenarios never rises with the threshold |
| Harness.EvaluateFalsePerHour | backend/analytics/metrics/metrics.py:68-80 | the false-alarm rate: detections on normal scenarios per hour of normal time, zero if there is none |
| Harness.FalseRateIsPerHour | backend/analytics/metrics/metrics.py:70-80 | rate times normal seconds is 3600 times the number of productive scenarios in which some sample is bad for at least the threshold |
| Harness.NormalSecondsSnoc | backend/analytics/metrics/metrics.py:75 | only productive scenarios count as normal time |
| Harness.OperatingCurve | backend/analytics/metrics/metrics.py:143-150 | one rate per grid point, never rising along an ascending grid |
| Survival.RemainingAreAtRisk | backend/analytics/cohort/metrics.py:48-59 | at every step the running counter equals the number of durations at or above the current time and is positive |
| Survival.SurvivalSteps | backend/analytics/cohort/metrics.py:43-60 | the loop with its running counter computes the product-limit curve defined by risk sets |
| Survival.CountsAreCardinalities | backend/analytics/cohort/metrics.py:54-55 | those at risk, exits and events at a time are sizes of sets of learners; only those who reached the goal are events |
| Survival.SurvivalAcrossExit | backend/analytics/cohort/metrics.py:53-59 | with any censoring, across an exit time survival is multiplied by the share of those at risk without an event there, and stays flat where all exits are censored |
| Survival.ZipAt | backend/analytics/cohort/metrics.py:47 | the pairing takes durations and events item by item, as many as the shorter list has |
| Survival.StepsAreACurve | backend/analytics/cohort/metrics.py:43-60 | exit times strictly ascend, survival stays in the unit interval and never rises |
| Survival.UncensoredSurvivalIsShare | backend/analytics/cohort/metrics.py:53-59 | without censoring the product telescopes to the share still under observation at every step |
| Survival.KaplanMeierMedian | backend/analytics/cohort/metrics.py:63-76 | the least observed time whose reach rate exceeds one half; None iff there are no events, the share reached is below one half, or no such time exists |
| Survival.ShareReachedIsShare | backend/analytics/cohort/metrics.py:67-70 | the share the median is tested against: the caller's if given, else that of the true flags among all |
| Survival.ReachRateAt | backend/analytics/cohort/metrics.py:79-90 | the loop with its early exit computes one minus the survival at the horizon |
| Survival.ReachRateIsProduct | backend/analytics/cohort/metrics.py:79-90 | the reach rate is one minus the product of the factors of all exit times up to the horizon |
| Survival.NobodyReaches | backend/analytics/cohort/metrics.py:81-97 | without learners reach rate and restricted mean are zero |
| Survival.UncensoredReachRate | backend/analytics/cohort/metrics.py:79-90 | without censoring the reach rate is the plain share of learners done by the horizon |
| Survival.ComputeRestrictedMean | backend/analytics/cohort/metrics.py:93-107 | the accumulating loop computes the area under the step curve up to the horizon |
| Survival.UncensoredRestrictedMean | backend/analytics/cohort/metrics.py:93-107 | without censoring it is the average of the durations, each cut at the horizon |
| Survival.RestrictedMeanGrowth | backend/analytics/cohort/metrics.py:79-107 | with any censoring its growth between two horizons lies between the two survival probabilities times the distance |
| Survival.RestrictedMeanStartsAtZero | backend/analytics/cohort/metrics.py:98-107 | at horizon zero it is zero |
| Kappa.ProductsBound | backend/analytics/metrics/real_loader.py:9-11 | the chance products are bounded by label counts and agreements, category by category |
| Kappa.KappaBounds | backend/analytics/metrics/real_loader.py:4-14 | kappa lies between -1 and 1 and is 1 iff the annotators agree everywhere |
| Kappa.KappaByCounting | backend/analytics/metrics/real_loader.py:4-14 | for n items, m agreeing ones and p matching pairs across the lists, kappa times (n squared minus p) is n m minus p; lists of different or zero length score zero |
| Kappa.ShortcutIffOneLabel | backend/analytics/metrics/real_loader.py:12-13 | the division guard triggers iff both annotators gave every item the same single label |
| Queue.SessionQueueService.LuaTryAcquire | backend/sessions/queue.py:25-44 | succeeds iff both caps leave room; then both counters rise by one, otherwise nothing changes |
| Queue.SessionQueueService.TryAcquire | backend/sessions/queue.py:115-130 | an acquired slot also takes the user off the waiting list; a refusal changes nothing |
| Queue.SessionQueueService.ReleaseSlot | backend/sessions/queue.py:47-58 | lowers each positive counter by one |
| Queue.SessionQueueService.EnqueueUser | backend/sessions/queue.py:63-78 | the lab's list is the old one, followed by the user unless already on it; every other list is unchanged; the answer is the one-based index of the user's first entry |
| Queue.SessionQueueService.DequeueUser | backend/sessions/queue.py:155-158 | exactly the user's entries go from the lab's list, every other list is unchanged, and the number that went is reported |
| Queue.WithoutSnoc | backend/sessions/queue.py:155-158 | removal works entry by entry, so the others keep their order |
| Queue.SlotOpsByKey | backend/sessions/queue.py:25-58 | what acquiring and releasing do to every key, with the per-lab cap and the global cap for labs without one |
| Queue.SessionQueueService.Position | backend/sessions/queue.py:160-166 | reports the same place that joining returns, None iff absent |
| Queue.PlaceAt | backend/sessions/queue.py:160-166 | the place is one plus the index of the user's first entry |
| Queue.RunsStayWithinCaps | backend/sessions/queue.py:25-58 | under any sequence of acquisitions and releases, matched or not, no counter passes its cap |
| Queue.ReleaseKeepsCounters | backend/sessions/queue.py:47-58 | releasing a slot the lab holds finds the global counter positive and keeps it the sum of the lab counters |
| Queue.OpsKeepQueuesFair | backend/sessions/queue.py:60-78 | every operation keeps every waiting list free of duplicates; nobody who stays falls back, loses a lead over another who stays, or is passed by a newcomer |
| Queue.WaitersNeverMoveBack | backend/sessions/queue.py:144-166 | over any run the place of a user who keeps waiting never grows |
| Queue.WhoWaitsAfter | backend/sessions/queue.py:60-78 | after any operation exactly those wait on a list who waited and were not dropped from it, and whoever just joined it |
| Queue.NeverDroppedNeverLost | backend/sessions/queue.py:144-166 | over any run whoever waits and is never dropped still waits, no further back |
| Queue.WaitersKeepTheirOrder | backend/sessions/queue.py:144-166 | over any run two users who both keep waiting keep their order |
| SlotSafety.StepConserves | backend/sessions/routers/commands.py:85-122 | every step of every interleaving, lost launches and repeated ends included, keeps each lab counter equal to the slots in use and the lab counters summing to the global one |
| SlotSafety.ReleaseNeverClamps | backend/sessions/queue.py:46-58 | whoever releases a slot finds both counters positive |
| SlotSafety.StepKeepsOneLiveRow | backend/models/learning.py:25-31 | the partial unique index keeps one live row per learner and lab through insert, finalize and end |
| SlotSafety.LiveAfterStep | backend/sessions/services/launch.py:62-78 | only the commit of a provisioning row adds a live row, and only for the learner whose lock is held |
| SlotSafety.StepKeepsUserCap | backend/sessions/services/launch.py:34-53 | the locked recount keeps every learner at or below the session cap under all interleavings |
| SlotSafety.StepKeepsTidy | backend/sessions/queue.py:60-78 | every protocol step keeps the waiting lists duplicate-free and overtakes nobody on them |
| SlotSafety.WhoWaitsAfterStep | backend/sessions/routers/commands.py:88-91 | in the protocol a learner comes off a list only when a request of theirs has got a slot, and on it only when one has not |
| SlotSafety.StepKeepsInvariant | backend/sessions/services/launch.py:102-180 | every enabled step of launches, failures, races, crashes and ends keeps the whole invariant |
| SlotSafety.EveryRunIsSafe | backend/sessions/routers/commands.py:85-122 | every state of every run from the empty store satisfies conservation, caps, duplicate-free queues, one live row and the learner cap |
| SlotSafety.ReachingIsSafe | backend/sessions/services/launch.py:102-180 | whatever a sequence of enabled steps reaches from a safe state is safe |
| SlotSafety.CrashIsSafeIff | backend/sessions/routers/commands.py:88-122 | losing a launch keeps the invariant iff the request does not itself hold a slot at that moment: before it takes one, or once its row stands for it |
| SlotSafety.NothingLeaks | backend/worker/reaper.py:50-53 | when nothing is in flight a lab's counter is the number of its active sessions plus the provisioning rows that lost launches have left behind, and each of those can be ended |
| SessionEnds.EndIsMarkThenRelease | backend/sessions/services/lifecycle.py:113-145 | the finalization point is the two protocol steps of marking a row ended and releasing its slot |
| SessionEnds.EndingLiveRowLooksSound | backend/sessions/services/lifecycle.py:123-144 | at once, ending a live row never harms conservation, caps, queues, the unique live row or the learner cap, not even while its launch is at work |
| SessionEnds.EndedLaunchComesBackForGood | backend/sessions/services/launch.py:94-97 | if a row is ended under a launch that GNS3 then grants, it turns active again, one slot too few is counted, and ending it once more does nothing |
| SessionEnds.EndedLaunchReleasesTwice | backend/sessions/services/launch.py:152-157 | if GNS3 refuses instead, the launch gives its slot back a second time, and the counters are right afterwards iff it was the only slot taken |
| SessionEnds.EndIsSafeIff | backend/sessions/services/lifecycle.py:223-245 | after ending a row that has not ended, conservation, caps, queues, the unique live row and the learner cap hold now and after anything the protocol can still do, iff the row is live with no launch at work on it, or is dead while no slot is taken |
| SessionEnds.NoCheckOnTheRowSuffices | backend/sessions/services/lifecycle.py:123-130 | for every row under launch, losing the launch leaves tables and counters as they are and turns ending the row from unsafe to safe, so no check on what is stored can decide |
| SessionEnds.EndIsSafeIffActive | backend/sessions/services/lifecycle.py:223-245 | in every run without lost launches the status decides: ending is safe for good iff the row is active, or is not provisioning and no slot is taken |
| StrayRelease.EndingAFailedLaunchFreesAnotherSlot | backend/sessions/services/lifecycle.py:123-144 | a run from the empty store to a safe state at rest, one session running and one launch failed, in which ending the failed row, which the source allows, releases the running session's slot |
| SessionEnds.SlotlessInsertIsSafeIff | backend/sessions/services/launch.py:127-151 | a row committed for a launch keeps conservation iff the launch took a slot or the unique index rejects the row |
| SessionEnds.ReapExpiredSessions | backend/worker/reaper.py:62-91 | the loop is the pass that ends each selected row still there, whatever has become of it; its count is the number of selected rows |
| SessionEnds.ReapEndsEachRowOnce | backend/worker/reaper.py:62-91 | for any selection: exactly the selected rows that had not ended are ended, each counter falls by the number of its rows, to zero at worst, and nothing else changes |
| SessionEnds.ReapReleasesEachSlotOnce | backend/worker/reaper.py:74-91 | for rows that are live or have ended since the query, no lab counter is clamped: it falls by exactly the number of the lab's rows ended |
| SessionEnds.ReapIsSafeIff | backend/worker/reaper.py:39-91 | a pass over such rows keeps everything the platform relies on, now and later, iff no launch is still at work on any of them |
| Launch.LaunchHoldingSlot | backend/sessions/routers/commands.py:104-122 | from a held slot: either an active row keeps it or it is released, on every path, and only a launch that reached GNS3 leaves a row |
| Launch.LaunchEndpoint | backend/sessions/routers/commands.py:85-122 | run on its own, a request follows enabled protocol steps; its answer is the one the tables call for; counters, rows and waiting lists, key by key, change exactly as that answer says: one slot iff a session was created |
| Launch.AnswerIsCalledFor | backend/sessions/services/launch.py:127-169 | each answer, in terms of rows, caps and inputs: Resumed iff some row of this learner on this lab is active, Queued iff no room, and so on gate by gate, AlreadyLaunching iff only a live row of this learner on this lab stands in the way |
| Launch.AnswerDependsOn | backend/sessions/services/query.py:19-28 | rows of other learners and other labs matter only through free slots and the number of live sessions the learner has |
| Launch.ReleaseUndoesAcquire | backend/sessions/routers/commands.py:108-122 | a release restores every counter the acquisition changed; joining the waiting list changes none |

## Left out

Where code and documentation disagree the code is followed: the docstring of `derive_T_k` speaks of
choosing each threshold independently, but choices are locked in sequence; the comment in
`simulate_interventions` says it matches the live law, which holds under the condition proved.

- Floating point: all times, costs and rates are exact reals.
- Regime identification: `FeatureExtractor` and `identify_regime` are inputs; the model starts from the stream of regimes. A regime string outside the five is `Other(name)`.
- Clocks: a live cycle has one clock reading for dwell and decision, strictly later than the one before, and an intervention is stamped with it; a second, later reading serves only the repeated cooldown check. The source also reads the clock at `monitor.py:217` and `monitor.py:431`.
- Randomness: the hold draw and the jitter factor are inputs of a cycle; only the band of the jittered thresholds relies on the factors lying in their configured interval.
- LiveLoop.SessionMonitor.RunAnalysis: does not model the objective-escalation latch, latency capture or the content of an intervention; the answers of the act gates, delivery failures included, are one boolean input.
- RandomisedTrial.TrialMonitor.RunCycle: does not model a monitor restarted in mid-session; the table is the session's own, row ids are its indices, and it has one column more than the source's, whether an intervention was delivered.
- RandomisedTrial.EveryFinishedRunIsAccountedFor: assumes that the monitor is stopped before censoring, as `end_lab` and the reaper do. The orphan sweep in `sessions/services/state.py:36` does not stop it; MonitorOutlivingCensoring says exactly when the table is in order even then.
- RandomisedTrial.TrialMonitor.CensorOpenDecisions: does not cover censoring that fails, which the caller logs and ignores.
- Optimiser.DeriveTk: returns None where the source raises IndexError; the grid is an ordered list of distinct regimes, which a Python dictionary is.
- Harness.OperatingCurve: computes the false-alarm rate only; J, latency, recall, bootstrap intervals, the confusion matrix and rule diagnostics are not modelled.
- Cohort aggregates (`time_to_competence`, `autonomy_metrics`) and `sensitivity_curve`: compositions of the modelled functions.
- Kappa.KappaBounds: the set of categories is walked in any order without repetition; the proof holds for all of them.
- Slot protocol steps: each Lua script, each Redis command and each committed transaction is one atomic step, and the read, check and write of `ended_at` at `lifecycle.py:123-129` is one step. Rows and counters are a state value stepped by a function instead of objects updated in place.
- Environment of the protocol: a request that saw an active session still sees it at its second lookup; a row that has not ended is ended only if it is live with no launch at work; no launch is lost while the request itself holds a slot, between acquiring it and committing the row or before giving it back. The source enforces none of these; SlotlessInsertIsSafeIff, EndIsSafeIff and CrashIsSafeIff say exactly when each matters. Key expiry, row erasure, Redis or database failures, and failures after a row turns active are not modelled.
- User lock: the advisory lock is per user, without hash collisions, and Postgres is the database; elsewhere the source skips the lock.
- SessionEnds.ReapExpiredSessions: takes the selected rows as input, with no other step during the pass, and does not model the query's deadlines, monitor shutdown, config persistence, GNS3 teardown or failures of single rows. Passes interleaved with other steps are runs of the protocol, one end at a time.
- Launch.LaunchEndpoint: a missing and a disabled lab are one answer, and consent, credentials, tickets, monitor start, gauges, queue depth and the waiting-time estimate are left out.
- Stop, restart and reset of a lab, experiment metrics, instructor and admin pages, routing, authentication and the frontend.
