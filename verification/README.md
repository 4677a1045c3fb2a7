# OpenVohive: a verified model of its schedulers, protocols and tables

OpenVohive drives cellular modems. Many goroutines share one smart card, a card switch overlaps with
background refreshes and time-outs, recoveries are scheduled from several places at once, and tables are
kept up to date incrementally. This project models the parts of it where the order of events decides,
and proves what holds whatever that order is. Where the program does not keep what it sets out to keep,
the case is proved as such, with the exact condition under which it is kept.

**How it is modelled.** A critical section is one atomic step of a state machine; a run is any sequence
of steps the program allows, so a claim about runs covers every interleaving. Clock readings and the
answers of modems and cards are arbitrary inputs. Code that updates fields is a class whose methods are
proved to do exactly the corresponding step; loops are methods with invariants; the theorems are lemmas
about the steps and runs. Durations are in nanoseconds.

**The parts.**

- *APDU arbiter* (`ArbiterModel`, `ArbiterSelection`, `ArbiterRuns`, `ArbiterInvariant`,
  `ArbiterTheorems`, `ArbiterWakeup`, `Arbiter`): one queue of sessions, one-shots, transports and
  barriers, with AKA priority, aging, watchdogs and wake-up by replacing a channel.
- *SIMAuth gate* (`SimAuthGate`): one probe at a time, generation-checked.
- *eSIM switch* (`SwitchTables`, `SimIdentity`, `SwitchProtocol`, `Convergence`): the switch tokens, the
  identity phases, starter and finalisers on both at once, and the bounded convergence loop.
- *Recovery* (`RebuildWindow`, `RecoveryFlight`): the sliding-window cap, and the two marks that keep
  recoveries apart.
- *Registration* (`ModemLog`, `QmiRegistration`, `MbimRegistration`): both loops against an adversarial
  modem. `ModemLog.Next` says call by call what may and what must be asked next.
- *Data* (`IdentityResolver`, `SmsContacts`, `Traffic`, `Plmn`): hardware against configurations, the
  contact table against the messages, hours and days against minutes, operator codes against numbers.
- `Text` holds the shared string functions, `Wrappers` the optional value.

**Where the program falls short of what one would expect of it**, each a theorem below:

- A request that crosses the 500 ms aging mark wakes nobody. If that happens between two waiters'
  checks, each can yield to the other, and both wait on an idle arbiter
  (`ArbiterWakeup.AgingCanStrandWaiters`; the condition is `ArbiterSelection.Steady`).
- The finaliser of a superseded switch marks the newer switch degraded, because that one update carries
  token 0 (`SwitchProtocol.OldFinaliserDegradesNewSwitch`); it does so exactly when its gate did not open
  and the newer switch began after its very last token check (`SwitchProtocol.SupersededFinaliser`).
- The finaliser writes the identity without looking again at the pending target, so it can publish the
  card of a switch that has been superseded (`SwitchProtocol.OldFinaliserPublishesOldCard`). It can be
  trusted exactly when the pending target is its own (`SimIdentity.FinaliserIsSafeExactly`): one without
  a target never can, and may even end the newer switch with no card (`SimIdentity.FailedReadForgetsTarget`).
- A phase update trims the device name and the start of the switch does not
  (`SwitchTables.MarkReachesItsSwitch`).
- The rebuild cap reads the clock before it takes the lock; readings one nanosecond out of order make it
  forget (`RebuildWindow.RunningAheadForgets`). It judges by its window exactly when nothing in it was
  forgotten (`RebuildWindow.JudgedByItsWindow`).
- A recovery's end clears the active event of another recovery of the same device
  (`RecoveryFlight.EventLosesItsMark`; the condition is `RecoveryFlight.EventKeepsItsMark`).
- A backfill of the contacts that fails between two pages leaves a partial index. The next one repairs it
  only where its guard lets it run (`SmsContacts.InterruptedRecoversExactly`).
- Deleting a message of a SIM without IMSI leaves its contact as it was
  (`SmsContacts.DeleteFitsExactly`), and saving an older message moves a contact's last message
  backwards (`SmsContacts.SaveFitsExactly`).
- A counter that falls by more than two to the 63 counts as risen (`Traffic.DeltaExactly`), and a rollup
  that runs an hour or more after its sample leaves an hour row wrong (`Traffic.LateRollupLosesBytes`).
- An override of the PCS marker changes the operator code that is read back (`Plmn.PrintedBack`).

## Model

| member | source | states |
|---|---|---|
| ArbiterSelection.SelectionExact | internal/apduarbiter/arbiter.go:526-571 | the one-pass scan returns a ticket exactly when it is the oldest aged eligible non-AKA, else the oldest eligible AKA, else the oldest eligible ticket of the ungated prefix |
| ArbiterSelection.NoLeaseOvertakesABarrier | internal/apduarbiter/arbiter.go:481-505 | no lease queued behind a pending barrier can be granted |
| ArbiterSelection.OvertakingIsBounded | internal/apduarbiter/arbiter.go:526-571 | an AKA overtakes an earlier eligible request only while that one is not AKA and has waited under 500 ms; a non-AKA overtakes only when aged |
| ArbiterSelection.AgedIsNotOvertaken | internal/apduarbiter/arbiter.go:552-571 | an aged eligible non-AKA request is overtaken by nothing behind it |
| ArbiterSelection.ExclusiveIsNotOvertaken | internal/apduarbiter/arbiter.go:573-600 | while a transport is active an unblocked exclusive request is overtaken by nothing behind it |
| ArbiterSelection.SomeoneIsGrantable | internal/apduarbiter/arbiter.go:481-571 | with nothing active and a non-empty queue some ticket is grantable |
| ArbiterSelection.GrantedExactly | internal/apduarbiter/arbiter.go:481-600 | on every queue and whatever is active, who is granted in terms of the active leases alone: the head session with room, the head one-shot and the oldest barrier with nothing active, and the next transport, with as many channels side by side as the options allow |
| ArbiterSelection.FreeChannelIsServed | internal/apduarbiter/arbiter.go:526-587 | with fewer channel transports than allowed a request for a free channel does not wait for others: not for one whose channel is taken, nor for one whose class is blocked |
| ArbiterSelection.WakeupIsKeptExactlyWhenSteady | internal/apduarbiter/arbiter.go:837-840 | however the waiters' checks are spread over an interval one of them takes the grant, if and only if no request crosses the aging mark in a way that moves the selection |
| ArbiterInvariant.StepKeeps | internal/apduarbiter/arbiter.go:407-479 | every critical section keeps exclusion, distinct ids, no missed waiter, a watchdog per lease, and the accounts |
| ArbiterTheorems.ExclusionInEveryState | internal/apduarbiter/arbiter.go:573-587 | in every reachable state: one one-shot, or at most MaxSessions sessions, or transports that are one exclusive or at most MaxQMITransports on distinct positive channels; and none of a blocked class |
| ArbiterTheorems.EveryRequestIsAccountedFor | internal/apduarbiter/arbiter.go:424-473 | wait requests equal acquires plus wait time-outs plus the queue's length in every reachable state |
| ArbiterTheorems.StagesOnlyRise | internal/apduarbiter/arbiter.go:760-795 | a request only moves forward, so a granted lease leaves the active set at most once |
| ArbiterTheorems.OnlyItsOwnCallsEndIt | internal/apduarbiter/arbiter.go:665-730 | an active lease or barrier is ended by exactly these calls: its own release of its own type, its own watchdog callback at or past the deadline; no late release or stale timer ends another |
| ArbiterTheorems.TicketsAreKept | internal/apduarbiter/arbiter.go:407-464 | in every run whatever is queued or active is, unchanged, a request that arrived |
| ArbiterTheorems.ForcedReleaseIsNeverEarly | internal/apduarbiter/arbiter.go:702-730 | a watchdog ends a lease only when MaxLeaseHold has passed since its grant and its last Touch |
| ArbiterTheorems.WatchdogIsNeverLost | internal/apduarbiter/arbiter.go:641-663 | every active lease has its timer set or a fired callback of its own pending |
| ArbiterTheorems.BarrierPressureFalls | internal/apduarbiter/arbiter.go:517-524 | twice the leases queued ahead of the oldest barrier plus the active leases never rises, and drops on every grant, release or time-out among them |
| ArbiterTheorems.BarrierWaitIsBounded | internal/apduarbiter/arbiter.go:197-274 | over whole runs the oldest barrier waits for at most as many such steps as that number |
| ArbiterTheorems.BarrierThenEnters | internal/apduarbiter/arbiter.go:507-515 | with no active lease the oldest barrier is grantable |
| ArbiterWakeup.IdleMeansEmptyUnlessOneAged | internal/apduarbiter/arbiter.go:430-479 | when all waiters have re-checked since the last signal and nothing is active the queue is empty, unless one aged between the checks |
| ArbiterWakeup.StuckStays | internal/apduarbiter/arbiter.go:837-840 | a stuck queue stays until a request arrives or gives up |
| ArbiterWakeup.AgingCanStrandWaiters | internal/apduarbiter/arbiter.go:552-571 | a run of the defaults that ends stuck: two waiters yield to each other across the mark |
| Arbiter.Arbiter.constructor | internal/apduarbiter/arbiter.go:176-191 | a new arbiter is the empty state; non-positive options mean two minutes, one session and one transport |
| Arbiter.Arbiter.SelectedTransportTicket | internal/apduarbiter/arbiter.go:526-571 | the loop over mutable locals returns the selected transport |
| Arbiter.Arbiter.CanAcquireLeaseNow | internal/apduarbiter/arbiter.go:481-505 | the branches decide whether a lease can be granted |
| Arbiter.Arbiter.CanAcquireBarrierNow | internal/apduarbiter/arbiter.go:507-515 | the branches decide whether a barrier can be granted |
| Arbiter.Arbiter.CanAcquireTransportNow | internal/apduarbiter/arbiter.go:573-587 | the branches decide whether the active transports leave room |
| Arbiter.Arbiter.TransportWaitGatesQueue | internal/apduarbiter/arbiter.go:589-600 | the branches decide whether a transport holds back what is behind it |
| Arbiter.Arbiter.HasPendingBarrierAhead | internal/apduarbiter/arbiter.go:602-615 | the loop finds whether a barrier for the class is queued ahead |
| Arbiter.Arbiter.Arrive | internal/apduarbiter/arbiter.go:407-464 | queueing, signalling and the first check are one step of the state machine |
| Arbiter.Arbiter.Acquire | internal/apduarbiter/arbiter.go:407-464 | a lease request joins the queue under its class, or AKA for a one-shot and EUICCWrite otherwise; it is shared exactly as a transport in QMI mode on a positive channel |
| Arbiter.Arbiter.BeginBarrier | internal/apduarbiter/arbiter.go:197-251 | a barrier request joins the queue and blocks exactly the classes it names, an empty one meaning AKA; without any, AKA and SMSC |
| Arbiter.Arbiter.Recheck | internal/apduarbiter/arbiter.go:430-479 | a woken waiter's check is one step |
| Arbiter.Arbiter.GiveUp | internal/apduarbiter/arbiter.go:466-474 | a cancelled waiter leaves the queue and is counted only if it was still there |
| Arbiter.Arbiter.Touch | internal/apduarbiter/arbiter.go:641-663 | progress moves the deadline of an active lease, and of no other |
| Arbiter.Arbiter.Release | internal/apduarbiter/arbiter.go:665-684 | a release removes the lease it names if it is active, and signals |
| Arbiter.Arbiter.ReleaseExpired | internal/apduarbiter/arbiter.go:702-730 | a watchdog callback re-arms after progress and otherwise ends the lease |
| Arbiter.Arbiter.ReleaseBarrier | internal/apduarbiter/arbiter.go:686-700 | a barrier's release removes it and signals |
| SimAuthGate.OneProbeAtATime | internal/apduarbiter/simauth_ready.go:50-115 | at most one probe runs; the probing flag stands exactly while the current channel is open |
| SimAuthGate.WaitersAreServed | internal/apduarbiter/simauth_ready.go:66-84 | a waiter's channel is closed or a running probe will close it |
| SimAuthGate.ReadyMeansProbed | internal/apduarbiter/simauth_ready.go:25-115 | whenever the gate is ready a probe started after the latest invalidation succeeded |
| SimAuthGate.DiscardsAreBounded | internal/apduarbiter/simauth_ready.go:86-114 | successful probes are discarded at most as often as invalidations occur |
| SimAuthGate.SuccessIsCurrent | internal/apduarbiter/simauth_ready.go:50-115 | a caller succeeds only through the flag or its own probe of the current generation |
| SimAuthGate.ProbeAnswers | internal/apduarbiter/simauth_ready.go:92-114 | in every run a caller whose probe succeeds returns success exactly when nothing was invalidated meanwhile, and otherwise looks again; an error is returned |
| SimAuthGate.LookAnswers | internal/apduarbiter/simauth_ready.go:66-90 | in every run a caller that looks returns where the gate is ready, waits for the running probe where there is one, and otherwise probes |
| SimAuthGate.Gate.InvalidateReady | internal/apduarbiter/simauth_ready.go:25-48 | an invalidation raises the generation and clears the flag |
| SimAuthGate.Gate.LookIn | internal/apduarbiter/simauth_ready.go:66-90 | the locked section at the top of the loop |
| SimAuthGate.Gate.FinishProbe | internal/apduarbiter/simauth_ready.go:94-113 | the locked section after a probe |
| SwitchTables.ApplyKeeps | internal/device/pool_esim_switch.go:96-129 | the three maps keep the same keys, contexts carry their device's token, tokens are unique and at most switchSeq |
| SwitchTables.StaleTokenIsInert | internal/device/pool_esim_switch.go:146-204 | after a newer switch begins, whatever carries the older token changes no map under any device name |
| SwitchTables.TokenNeverReturns | internal/device/pool_esim_switch.go:228-240 | a token that was replaced or cleared never comes back in any run |
| SwitchTables.OthersUntouched | internal/device/pool_esim_switch.go:939-974 | an operation with a token leaves every other device's entry alone |
| SwitchTables.MarkReachesItsSwitch | internal/device/pool_esim_switch.go:146-185 | a phase update finds its own switch exactly when the device name has no surrounding space |
| SwitchTables.TimeoutHitsItsOwnSwitch | internal/device/pool_esim_switch.go:117-130 | in every run with distinct capture times the two-minute time-out of a switch changes the tables exactly while that switch is still the device's current one |
| SwitchTables.TokenlessFailureSpares | internal/device/pool_esim_switch.go:939-950 | a switch begun between the two sections of a token-less failure survives exactly when the first section found a switch |
| SwitchTables.EntryOrigin | internal/device/pool_esim_switch.go:96-116 | in every run the entry of a device holds to its end what was captured when its switch began: the state to restore, the target and the time |
| SwitchTables.SnapshotIsTheCaptured | internal/device/pool_esim_switch.go:604-626 | whoever comes with a switch's token is given what was captured when it began, exactly as long as it is the current one; without a token, what the current one would get or the state of now |
| SwitchTables.PhaseIsTheLast | internal/device/pool_esim_switch.go:146-185 | the phase of an entry is that of the last update that found it, or that of its start |
| SwitchTables.GenerationIsTheLast | internal/device/pool_esim_switch.go:187-204 | its generation is that of the last update since its start |
| SwitchTables.EntryEndsExactly | internal/device/pool_esim_switch.go:220-240 | a switch is ended by exactly a clean-up or failure under its token, a clean-up of its device and its own time-out, and replaced only by the start of another |
| SwitchTables.SwitchBoard.BeginSwitch | internal/device/pool_esim_switch.go:96-116 | a switch begins under a new token, with everything that was captured |
| SwitchTables.SwitchBoard.MarkPhaseIfToken | internal/device/pool_esim_switch.go:146-185 | the token-checked phase update |
| SwitchTables.SwitchBoard.UpdateIdentityGeneration | internal/device/pool_esim_switch.go:187-204 | the token-checked update of the generation |
| SwitchTables.SwitchBoard.ClearIfToken | internal/device/pool_esim_switch.go:228-240 | the token-checked clean-up |
| SwitchTables.SwitchBoard.FinishForFailure | internal/device/pool_esim_switch.go:939-974 | the token-checked end of a failed switch and its snapshot; without a token, the end of whatever switch there is |
| SwitchTables.SwitchBoard.ResolveIfToken | internal/device/pool_esim_switch.go:594-626 | a snapshot is found exactly while the token is current; without a token it is whatever there is, or the state captured now |
| SimIdentity.UnpaddedExactly | internal/device/pool_esim_switch.go:588-592 | what is compared is the upper case of the trimmed text's characters other than the blank, in order and none missing |
| SimIdentity.SameKey | internal/device/pool_esim_switch.go:588-592 | two ICCIDs have the same comparison key exactly when these differ in trailing F padding only |
| SimIdentity.SamePlainKey | internal/device/pool_esim_switch.go:588-592 | plain ICCIDs have the same key exactly when they differ in trailing F only; without padding, when they are equal |
| SimIdentity.Always | internal/device/pool_state.go:185-217 | in every run, while a target is pending no ICCID or IMSI is published and the identity is not ready |
| SimIdentity.GenerationCounts | internal/device/pool_state.go:153-198 | the generation rises by one with each new transition and with nothing else |
| SimIdentity.LiveHonoursTheTarget | internal/device/pool.go:553-595 | a live refresh reaches ready exactly when its ICCID is the pending target's, and otherwise changes nothing |
| SimIdentity.LiveIsFreeOtherwise | internal/device/pool.go:553-595 | with no target pending a live refresh that read anything makes the identity ready with what it read |
| SimIdentity.FinaliserPublishes | internal/device/pool_esim_switch.go:452-503 | for every finaliser and all readings: it degrades if another card than its own target answers; otherwise any value read makes the identity ready, on the pending card exactly when that ICCID was read |
| SimIdentity.FinaliserIsSafeExactly | internal/device/pool_esim_switch.go:452-503 | a finaliser publishes no card but the pending one, whatever it reads, exactly when the pending target is its own |
| SimIdentity.StaleFinaliserPublishesOldCard | internal/device/pool_esim_switch.go:475-503 | for any two different targets a run in which the first finaliser publishes the first card after the second switch began |
| SimIdentity.TargetlessFinaliserPublishesAnyCard | internal/device/pool_esim_switch.go:563-567 | a run in which the finaliser of an operation without a target publishes any card and ends the switch to another |
| SimIdentity.FailedReadForgetsTarget | internal/device/pool_esim_switch.go:475-498 | a run in which its ICCID read fails and an IMSI alone ends that switch, ready and with no ICCID |
| SimIdentity.FirstPublication | internal/device/pool_esim_switch.go:379-503 | after a transition the first ICCID published is the target's unless a finaliser of another target publishes it |
| SimIdentity.OldCardIsGone | internal/device/pool_state.go:398-408 | from the start of a transition until something is published or the next one starts the current ICCID is the new target, or nothing if there is none |
| SimIdentity.ScheduledRefreshRuns | internal/device/pool_state.go:243-262 | a scheduled refresh runs exactly while its transition is the newest and its target still pending |
| SimIdentity.MatchesExactly | internal/device/pool_state.go:243-262 | a scheduled refresh is wanted exactly if its transition is the newest, the identity is not ready and its target is the pending one |
| SimIdentity.PollIdentity | internal/device/pool_esim_switch.go:412-450 | whatever the card answers the poll loop stops at the first round that settles or is past the deadline, after a bounded number of rounds |
| SimIdentity.SettledExactly | internal/device/pool_esim_switch.go:423-434 | on plain ICCIDs: done when that very target answers with an IMSI; without a target, when there was no card before or another answers |
| SimIdentity.ReportIsTrue | internal/device/pool_esim_switch.go:505-551 | for all readings: a reported success stands for a published ICCID of the target unless the text came with an error; a failure leaves the identity degraded and not ready |
| SimIdentity.WorkerIdentity.BeginTransition | internal/device/pool_state.go:153-162 | clears the identity, sets the target and raises the generation |
| SimIdentity.WorkerIdentity.EnsureTransition | internal/device/pool_state.go:164-183 | starts a transition unless the same one is under way |
| SimIdentity.WorkerIdentity.MarkDegraded | internal/device/pool_state.go:200-217 | takes the readiness away and keeps the target |
| SimIdentity.WorkerIdentity.ApplyLive | internal/device/pool.go:553-595 | the locked section of a live refresh |
| SimIdentity.WorkerIdentity.ApplyFinal | internal/device/pool_esim_switch.go:452-503 | the end of the finaliser's refresh |
| SwitchProtocol.StepKeeps | internal/device/pool_esim_switch.go:976-1085 | every section of starter, finalisers and scheduled refreshes keeps: a finaliser works for its token's target, one whose token was replaced was last checked before the newest switch began, and a pending target other than a poller's own is newer than its look at the transition |
| SwitchProtocol.EveryStageIsChecked | internal/device/pool_esim_switch.go:1007-1073 | in every run, wherever a finaliser stands, its last token check is the one that belongs before that section, made with the then current token |
| SwitchProtocol.DoneMeansReported | internal/device/pool_esim_switch.go:1028-1085 | in every run a finaliser reaches the gate and marks its switch done only after its refresh reported an ICCID, the target's where it has one |
| SwitchProtocol.ProgressShows | internal/device/pool_esim_switch.go:976-1085 | the phases and the end that the entry shows of a finaliser whose token is current |
| SwitchProtocol.FailureShows | internal/device/pool_esim_switch.go:993-1058 | a finaliser sees to a transition to its own target; without a worker it leaves the identity alone and marks the switch failed, after a failed convergence or refresh degraded |
| SwitchProtocol.StartIsRecorded | internal/device/pool_esim_switch.go:326-332 | the start of a switch makes its target the pending one and stores the generation of its transition in its entry |
| SwitchProtocol.SupersededFinaliser | internal/device/pool_esim_switch.go:1003-1085 | in every run a superseded finaliser changes the tables exactly when it marks after a failed gate and the trimmed device name has an entry; the device's own entry is then of a switch that began after its very last token check |
| SwitchProtocol.OldFinaliserDegradesNewSwitch | internal/device/pool_esim_switch.go:848-853 | for any two targets a run through all token checks in which that update degrades the second switch |
| SwitchProtocol.WrongCardMeansOverlap | internal/device/pool_esim_switch.go:379-503 | in every run another card than the pending target's is published only under a transition newer than the refresh's own, and without retries only if a switch began after the last token check of this finaliser or of the one that started it |
| SwitchProtocol.OldFinaliserPublishesOldCard | internal/device/pool_esim_switch.go:475-503 | a run in which the second switch begins while the first finaliser polls, and the first card is published under the second switch's token |
| Convergence.DoneExactly | internal/device/post_switch_convergence.go:29-49 | a reading counts as done exactly when all three layers are ready and the target's ICCID answers, or without a target some identity |
| Convergence.Converge | internal/device/post_switch_convergence.go:164-302 | for every sequence of answers the loop ends after the first round that is done, fails its reload or is the last; exactly one of ready and degraded; its side effects are those of the rounds |
| Convergence.ConvergePostSwitch | internal/device/post_switch_convergence.go:164-302 | with options of any value: one of ready and degraded after at most the allowed attempts, recoveries times the threshold within the attempts, at most one reload |
| Convergence.RequestedExactly | internal/device/post_switch_convergence.go:218-277 | a core recovery is requested exactly when the stalls in a row outside the reinit window reach a multiple of the threshold |
| Convergence.RequestsAreBudgeted | internal/device/post_switch_convergence.go:218-277 | requests times the threshold plus the stalls counted towards the next never exceed the attempts |
| Convergence.CountedExactly | internal/device/post_switch_convergence.go:197-224 | a round counts as stalled when its reading or a probe the back end has shows a stalled service and the reinit window is over |
| Convergence.RequestsAreAwaited | internal/device/post_switch_convergence.go:222-277 | every requested recovery is followed at once by waiting for the core where that is possible, and otherwise by backing off if it was accepted |
| Convergence.AtMostOneReload | internal/device/post_switch_convergence.go:278-296 | the card is reloaded or power-cycled at most once, in the configured round, with transport and control ready |
| Convergence.ReloadGoesFirst | internal/device/post_switch_convergence.go:278-296 | a back end that can reload the card does so, and only one that cannot has its power cycled |
| Convergence.OutcomeTells | internal/device/post_switch_convergence.go:189-303 | the reason and slot of every end: the active slot, the one a failed reload names, or none |
| Convergence.PowerComesBack | internal/device/switch_reinit.go:130-157 | in every run of the loop each switching off is that of the active slot, or of slot 1 where none is known, and is followed at once by switching the same slot on, unless the context ended in that cycle |
| Convergence.AwaitReinit | internal/device/switch_reinit.go:86-127 | converged exactly when an event that signals it is confirmed by a reading within the window |
| Convergence.RunConvergence | internal/device/post_switch_convergence.go:314-387 | the whole log: after a gate that no event passed the active slot's power is cycled where that is possible, then comes the loop's log; nothing after an early success; at most two interferences and ten recoveries |
| RebuildWindow.ListIsExact | internal/device/transport_recovery_controller.go:113-133 | for all clocks the list is the accepted attempts that no later clock made too old |
| RebuildWindow.RefusedExactly | internal/device/transport_recovery_controller.go:113-133 | for all clocks an attempt is refused exactly when five accepted ones survive |
| RebuildWindow.JudgedByItsWindow | internal/device/transport_recovery_controller.go:113-133 | for all clocks an attempt is judged by exactly the accepted ones in its window if and only if none of those was forgotten |
| RebuildWindow.SixAreSpread | internal/device/transport_recovery_controller.go:9-12 | for all clocks, of six accepted attempts one of the first five was too old for a clock read by the sixth |
| RebuildWindow.SlidingWindow | internal/device/transport_recovery_controller.go:113-133 | for nondecreasing clocks an attempt is refused exactly when five accepted ones lie strictly inside the last thirty minutes, and the list is the accepted ones inside |
| RebuildWindow.SixSpanTheWindow | internal/device/transport_recovery_controller.go:9-12 | for nondecreasing clocks six accepted attempts span at least thirty minutes |
| RebuildWindow.SixSpanLessTheSkew | internal/device/transport_recovery_controller.go:9-12 | for clocks out of order by at most some skew, of six accepted attempts the sixth is thirty minutes less the skew after one of the first five |
| RebuildWindow.RunningAheadForgets | internal/device/transport_recovery_controller.go:109-117 | two readings one nanosecond out of order let six attempts through in less than thirty minutes |
| RebuildWindow.CapIsPerGeneration | internal/device/transport_recovery_controller.go:87-101 | only attempts since the worker generation last changed count |
| RebuildWindow.FilterInPlace | internal/device/transport_recovery_controller.go:119-125 | the filter over the shared array keeps exactly the recent times in order |
| RebuildWindow.Controller.AllowRebuildAt | internal/device/transport_recovery_controller.go:113-133 | the attempt on one device's slice; no other device's list changes |
| RebuildWindow.Controller.SetWorkerGeneration | internal/device/transport_recovery_controller.go:87-101 | a new generation clears the device's list, the same one keeps it, an empty name changes nothing |
| RecoveryFlight.SingleFlight | internal/device/pool_reboot_recovery.go:84-112 | under any interleaving at most one recovery body runs per device name, and the mark stands exactly while a flight holds it |
| RecoveryFlight.EventIsTakenExactly | internal/device/transport_recovery_controller.go:51-72 | an event of another known generation is never taken up; one of the same or an unknown generation is exactly when its kind starts recoveries and none is active, and then its recovery is scheduled |
| RecoveryFlight.GenerationIsTheLast | internal/device/transport_recovery_controller.go:87-101 | in every run the generation an event is compared with is the last one set for its device |
| RecoveryFlight.BodyHasItsEvent | internal/device/pool_reboot_recovery.go:434-440 | in every run a recovery scheduled with an event not yet observed runs its body only after the controller took that event up |
| RecoveryFlight.TriggersSchedule | internal/device/pool_reboot_recovery.go:344-420 | the triggers without an event always schedule a recovery, under the name as given or trimmed, and none for an empty trimmed name |
| RecoveryFlight.ActiveHasItsRecovery | internal/device/pool_reboot_recovery.go:351-382 | an active event has a recovery of its device scheduled or under way that will finish it |
| RecoveryFlight.NothingLeaks | internal/device/pool_reboot_recovery.go:422-447 | once no recovery of a device is left neither mark is |
| RecoveryFlight.FlightsEnd | internal/device/pool_reboot_recovery.go:422-447 | every flight's next step advances it and nobody else's moves it |
| RecoveryFlight.EventKeepsItsMark | internal/device/transport_recovery_controller.go:74-85 | in every run an observed event stays active until its own recovery finishes exactly when no other recovery of the device finishes before |
| RecoveryFlight.EventLosesItsMark | internal/device/pool_reboot_recovery.go:442-447 | a run in which an observed event loses its mark and a second is taken up beside it |
| RecoveryFlight.LoneRecoveryCleansUp | internal/device/pool_reboot_recovery.go:361-370 | a lone recovery leaves no mark exactly when its event names the device it is scheduled for |
| RecoveryFlight.TransportRecovery.Observe | internal/device/transport_recovery_controller.go:51-72 | an event is taken up exactly when its kind starts recoveries, its generation is current and none is active |
| RecoveryFlight.TransportRecovery.Finish | internal/device/transport_recovery_controller.go:74-85 | the device's active event is cleared |
| RecoveryFlight.RecoveringMarks.Begin | internal/device/pool_reboot_recovery.go:84-102 | the mark is taken exactly when it is free |
| RecoveryFlight.RecoveringMarks.Finish | internal/device/pool_reboot_recovery.go:104-112 | the mark is given back |
| ModemLog.RadioCycle | internal/device/qmi_registration.go:280-302 | off, pause, on, pause, stopping at the first failure, within the rules |
| ModemLog.CyclesAreAllowed | internal/device/qmi_registration.go:173-185 | the radio is switched off only while searching, when due, and right after the suppress hook said no |
| ModemLog.CyclesEndOnline | internal/device/qmi_registration.go:280-302 | a successful switching off is followed by an Online request unless the context ends |
| ModemLog.AttachIsPrompt | internal/device/qmi_registration.go:140-151 | a registered, unattached reading is answered by an attach exactly when one is owed |
| ModemLog.RegisterIsPrompt | internal/device/qmi_registration.go:152-196 | an unregistered reading is answered by a submission exactly when one is owed |
| ModemLog.SearchIsPrompt | internal/device/qmi_registration.go:152-185 | while searching no pause passes a due forced search or a due, unsuppressed radio cycle |
| ModemLog.NextIsUnique | internal/device/qmi_registration.go:80-203 | the rules leave no choice: after every history at most one call is allowed |
| ModemLog.TheLogIsDetermined | internal/device/qmi_registration.go:80-203 | with the same modem only one log keeps to the rules until the attempt is over |
| QmiRegistration.EnsureRegistration | internal/device/qmi_registration.go:80-203 | for every modem: exactly the calls the rules determine, until the attempt is over and as it is over; at most MaxAttempts readings, one radio cycle, one forced search, two submissions and two attaches; success exactly on a registered and attached reading |
| QmiRegistration.Initiate | internal/device/qmi_registration.go:205-261 | the calls of a submission: manual, or automatic with its tolerated failure, and a second choice of automatic mode exactly when the first had failed too; failure exactly when it is not tolerated |
| QmiRegistration.Ready | internal/device/qmi_registration.go:90-123 | before the loop the radio is on and the SIM ready, or the attempt ends |
| QmiRegistration.WaitSim | internal/device/qmi_registration.go:331-346 | the SIM is asked at most MaxAttempts times until it is ready |
| MbimRegistration.EnsureRegistration | internal/device/mbim_registration.go:61-144 | the same for MBIM: exactly the calls the rules determine; at most one radio cycle, two submissions and two attaches; success exactly on a registered and attached reading |
| MbimRegistration.Ready | internal/device/mbim_registration.go:67-83 | before the loop the radio is switched on where it is off and the SIM is ready, or the attempt ends |
| IdentityResolver.NormalizeIMEI | internal/config/imei.go:8-20 | the loop returns the first fourteen digits, or nothing |
| IdentityResolver.KeyExactly | internal/config/imei.go:8-20 | the key of an IMEI is its first fourteen digits, whatever stands between them |
| IdentityResolver.MatchingIsByPrefix | internal/config/imei.go:24-27 | matching is reflexive exactly on IMEIs with fourteen digits, symmetric, and blind to what follows them |
| IdentityResolver.DedupeCompositions | internal/device/identity_resolver.go:116-135 | one entry per modem in first-seen order, each the earliest of the best rank |
| IdentityResolver.DedupedIsUnique | internal/device/identity_resolver.go:113-135 | that description determines the list |
| IdentityResolver.BestIsKept | internal/device/identity_resolver.go:113-155 | of every modem an entry at least as good as any other of it is kept: qmi before mbim before ncm before ecm before rndis before anything else |
| IdentityResolver.DedupeIsIdempotent | internal/device/identity_resolver.go:116-135 | de-duplicating twice changes nothing, and no two entries share a key |
| IdentityResolver.TakeLegacyConfig | internal/device/identity_resolver.go:100-111 | the first unused configuration whose paths match is taken and marked |
| IdentityResolver.ResolveDeviceIdentities | internal/device/identity_resolver.go:29-96 | the loops compute the three rounds on the de-duplicated hardware |
| IdentityResolver.HardwareIsPartitioned | internal/device/identity_resolver.go:29-96 | matched, unmatched and degraded hardware partition the de-duplicated hardware |
| IdentityResolver.PairsAreRight | internal/device/identity_resolver.go:51-87 | a configuration with an IMEI is paired only with its own key, one without only by paths; what is left could not be matched |
| IdentityResolver.PathsDecide | internal/device/identity_resolver.go:157-170 | a pair without identity shares a path and has no different USB paths; what is left over shares none with a configuration that is left |
| IdentityResolver.ImeilessComesLast | internal/device/identity_resolver.go:66-87 | no configuration goes to hardware without an IMEI while one with an IMEI that shares a path with it is left over |
| IdentityResolver.IdentityGoesFirst | internal/device/identity_resolver.go:51-64 | hardware whose key some configuration has is paired with the first of them |
| IdentityResolver.NoConfigTwice | internal/device/identity_resolver.go:47-87 | with distinct IDs no configuration is matched twice |
| IdentityResolver.OfflineExactly | internal/device/identity_resolver.go:89-95 | offline are the configurations whose ID is unused; these are the unmatched ones exactly when no unmatched one shares its ID with a matched one |
| IdentityResolver.OfflineIsUnmatched | internal/device/identity_resolver.go:89-95 | with distinct IDs a configuration is offline exactly when it was not matched |
| SmsContacts.IndexCounts | internal/db/db.go:836-871 | after any run of saves and deletes a contact exists exactly where a message does, and counts the unread received ones |
| SmsContacts.IndexIsExact | internal/db/db.go:709-742 | with saves in order every contact is what a rebuild would make |
| SmsContacts.FitsMeans | internal/db/db.go:1121-1173 | what is right: the contact shows the newest message of its SIM and peer, and how many received ones are unread |
| SmsContacts.SaveFitsExactly | internal/db/db.go:836-871 | a save keeps its contact right exactly when it is not older than the thread's latest message |
| SmsContacts.DeleteFitsExactly | internal/db/db.go:1188-1216 | a delete keeps its contact right exactly when the IMSI is not empty or the message was neither latest nor unread |
| SmsContacts.SavedExactly | internal/db/db.go:709-752 | what a save stores, under whom it was sent to or who sent it, and what it does to that contact and no other |
| SmsContacts.DeletedExactly | internal/db/db.go:1188-1241 | which messages a deletion removes, and no others |
| SmsContacts.RebuildFits | internal/db/db.go:1121-1173 | a rebuilt contact is right whatever it was before |
| SmsContacts.RebuildAgrees | internal/db/db.go:1121-1173 | after a backfill rebuilding a contact changes nothing |
| SmsContacts.Store.Backfill | internal/db/db.go:873-932 | the keyset-paged backfill ends, visits each message once, fills in the peers and leaves every contact right; a page that fails stops it between two pages |
| SmsContacts.FilledExactly | internal/db/db.go:908-918 | only a blank peer is filled in, with whom the message went to or came from |
| SmsContacts.InterruptedIsRight | internal/db/db.go:886-932 | an interrupted backfill leaves the index right exactly when no message it did not reach has a peer |
| SmsContacts.InterruptedRecoversExactly | internal/db/db.go:934-955 | the next backfill makes it right exactly when the guard lets it run, for want of contacts or a missing peer, or nothing was left to do |
| SmsContacts.Query | internal/db/db.go:893-904 | a page is the next messages by timestamp and id with none left out |
| SmsContacts.Store.VisitRow | internal/db/db.go:906-926 | one message of a page |
| SmsContacts.Store.SaveSms | internal/db/db.go:709-742 | the message and its contact are stored in one transaction |
| SmsContacts.Store.DeleteById | internal/db/db.go:1188-1216 | the message is removed and its contact rebuilt |
| SmsContacts.Store.DeleteByImsiAndPeer | internal/db/db.go:1218-1241 | the thread and its contact are removed, or nothing is |
| SmsContacts.Store.RebuildContact | internal/db/db.go:1121-1173 | one contact is rebuilt from the messages |
| Traffic.RollupAgain | internal/db/traffic_rollup.go:153-171 | rolling a period up again changes nothing |
| Traffic.TablesAgree | internal/device/pool_traffic.go:139-158 | after every tick day rows are the sums of their hours, and hour rows of their minutes where rollups follow their samples within the hour |
| Traffic.TickKeepsHours | internal/device/pool_traffic.go:139-150 | a tick keeps the hours right exactly when the rollup covers the sample's hour or its sums did not change |
| Traffic.TickKeepsDays | internal/device/pool_traffic.go:151-163 | a tick keeps the days right in every zone |
| Traffic.LateRollupLosesBytes | internal/device/pool_traffic.go:47-73 | a sample that adds bytes in either direction leaves the hours right exactly when the rollup covers its hour |
| Traffic.DeltaExactly | internal/device/pool_traffic.go:87-94 | an increment is recorded as it is exactly when it is below two to the 63; a fall counts zero exactly up to that much |
| Traffic.BytesTelescope | internal/device/pool_traffic.go:75-113 | the recorded bytes of a rising counter are its last reading less its first |
| Traffic.RollupInto | internal/db/traffic_rollup.go:153-171 | one row per group with the sum of the window |
| Traffic.TrafficStore.RecordTrafficDelta | internal/device/pool_traffic.go:75-113 | the baseline, the deltas and the two points |
| Traffic.TrafficStore.UpsertTrafficMinute | internal/db/traffic_rollup.go:84-112 | each point is added to its row or makes it |
| Traffic.TrafficStore.RollUp | internal/device/pool_traffic.go:139-158 | the current and previous hour, then the current and previous day |
| Plmn.EveryCodeRegisters | internal/backend/operator_selection.go:65-132 | exactly the 5- and 6-digit codes are accepted, and they become numbers that fit 16 bits |
| Plmn.SelectionKeeps | internal/backend/operator_selection.go:89-100 | a manual selection keeps the code and the radio technology, and the marker is the override's or else that of a six-digit code |
| Plmn.PrintedBack | internal/backend/qmi_operator_selection.go:94-109 | a registered code is printed back exactly when the override agrees with its length or the network code needs three digits |
| Plmn.ReadBack | internal/backend/qmi_operator_selection.go:94-109 | what the modem holds is understood exactly when both numbers have at most three digits |

## Left out

- HTTP handlers, authentication, settings, notifications, device discovery, shell commands and the QMI and MBIM wire calls: input and output; their answers are inputs here.
- Logging, statistics and status projections, Snapshot, Stats and WaitIdle of the arbiter, and the owner and mode labels of its tickets.
- Overflow of 64-bit ids, tokens, generations, byte sums and counters other than the traffic deltas: they are unbounded here.
- Several clock readings inside one critical section of the arbiter are one reading.
- Active leases of the arbiter are values in lists, not shared objects; a lease is known by its id.
- Branches for a non-positive MaxLeaseHold, which normalised options exclude.
- The last error and the reasons that the SIMAuth gate and the SIM identity keep for display, and the SIM metadata that is cleared and merged with the identity.
- Case mapping beyond ASCII and the two code points each that map into it; strings are code points, not bytes.
- The text by which errors are classified (stall, unsupported, incompatible): the class is part of the answer.
- The registration loops' early returns for a missing controller or SIM source, and the flags that keep two background registrations apart.
- The body of a recovery between taking and giving back its marks, the wake-up channels of its scan loop, and pools without a recovery controller.
- SQL and gorm: a transaction is one step that succeeds or, in the backfill, fails as a whole, and a query is what its text says. The derived local phone number of a message is not kept.
- Deletion of a thread by ICCID, which keys on another column than the contacts; the weekly and monthly rollups, which nothing schedules; and the clean-up of old rows.
- Zones whose offset changes: a day is twenty-four hours here.
- Finalisers and callbacks with token 0 in the joint runs of starter and finalisers: every switch that was begun has its own; and a second eSIM manager of one device, whose lock would not exclude the first.
- RecoveryFlight.ActiveHasItsRecovery: for events that name the device they are scheduled for, as both callers do; for others RecoveryFlight.LoneRecoveryCleansUp shows that the event is never finished.
- RecoveryFlight.NothingLeaks: for the same events.
- RecoveryFlight.SingleFlight: device names are compared as given, so a manual recovery under a name with surrounding space does not exclude one under the trimmed name, as in the program.
- IdentityResolver.NoConfigTwice: for distinct IDs and de-duplicated hardware, because two configurations with one ID and two keys are both matched in the first round.
