# GPU Steward: verified model

GPU Steward shares the GPUs of one host among independent command invocations. It has two cores, and
this project models both.

The **control plane** decides who runs where. Every invocation writes to one database of tasks, leases
and leased GPUs, under one file lock.

- `Planner.dfy` is the allocation plan: capacities, queue order, the solo reserve, greedy minimums,
  round-robin growth, slicing. `PlannerLoops.dfy` has the loops that compute it,
  `PlannerTheorems.dfy` says what its decisions mean, `QueueOrder.dfy` who starts, request by request, in
  terms of priority, age and id, and `PlannerOptimality.dfy` compares the number of jobs it starts with the
  most that could start.
- `StoreSpec.dfy` gives the database as a value and each store operation as a function on it;
  `StateStore.dfy` is the store object that changes its tables in place, inside transactions that can be
  rolled back, with every method proved against that function.
- `StoreInvariant.dfy` proves what every run of store operations keeps, whatever their arguments, and
  `Records.dfy` what each operation records or refuses and what a reachable database's records tell.
- `Coordination.dfy` holds the coordinator's locked sections, as functions and as methods of an object
  that sequences store transactions.
- `Protocol.dfy` lets any number of sessions interleave such sections while processes start, die and
  have their PIDs reused. `Scheduling.dfy` ties one schedule step to the planner, `StepLaunches.dfy` says
  whom it launches and with how many GPUs, and `Outcomes.dfy` what becomes of a task when its session polls,
  gives up or cancels, or its process dies. `Drain.dfy` shows that a closed system drains, or where it
  stops; `Stalls.dfy` that one request can keep everybody waiting. `FileLocks.dfy` shows that a section under
  the re-entrant file lock is atomic, instruction by instruction, and `Arrivals.dfy` uses that for two
  simultaneous arrivals.

The **observe plane** turns recorded events and samples into a daily report.

- `Intervals.dfy` has the interval union and the two-pointer overlap sweep; `Tiling.dfy` the segments.
- `CodexLane.dfy` and `GpuLane.dfy` tile one lane each; `Bars.dfy` folds a GPU lane into display bars
  and `BarTheorems.dfy` says what folding keeps; `DisplayTicks.dfy` says what the bars show at each tick
  in terms of the raw segments and `BarOrigins.dfy` where each bar's ends, names and gap counts come from.
- `DayReport.dfy` builds the day's report, and `DayMeaning.dfy` says what it counts in terms of the recorded
  events and samples themselves.
- `TimelineStore.dfy` has the append-only tables and the resolution of overrides.

`Prelude.dfy` and `Sorting.dfy` hold sums, options and the stable sort.

Throughout, a fast or stateful form is proved equal to a plain meaning. Intervals and lanes mean sets of
ticks; a session or a GPU means a function from ticks to what is known; a lease run means a relation
between databases (`StoreInvariant.Evolves`) that only ever moves forward.

## Conventions

Time is counted in integer ticks, so the source's comparison `abs(x - y) < 1e-9` is equality and the
final rounding to six digits has no counterpart. Task, GPU, event, sample and override identifiers are
integers: only their equality and order matter. A lease is keyed by its task, because the schema
declares `task_id` unique among leases; `lease_gpus` is a list of rows whose GPU is unique. The process
table maps each live PID to its start time, as Linux reports it.

## What the code does where its documentation says otherwise

- The planner's documentation promises to start "as many feasible jobs as possible"
  (`src/gpu_steward/scheduler.py:51`). It does not always: with two free GPUs and minimums 2, 1, 1,
  backfilling starts one job where two fit (`PlannerOptimality.BackfillCanStartFewer`), and with minimums
  3, 1 strict order starts none where one fits (`PlannerOptimality.StrictCanStartFewer`). Backfilling keeps
  the promise exactly when, going through the queue, every waiter that fits leaves room for as many others
  as any choice would start besides one; strict order keeps it exactly when one more than the affordable
  prefix would not fit even if the cheapest were chosen (`PlannerOptimality.PlanStartsMostExactly`).
- Where no request can be satisfied, requests are promised to stay queued, and where some can, as many as
  possible to start (`README.md:40-45`). A request without a maximum whose minimum exceeds the host is
  accepted into the queue, but the planner refuses every plan that includes it, with an error outside the
  program's own error hierarchy (`Scheduling.OversizedRequestStallsEverybody`,
  `Scheduling.ScheduleSucceedsExactly`). The offender is not withdrawn, and from then on nobody's request is
  launched, until it is cancelled or times out or a larger host is found (`Stalls.NobodyIsLaunched`); that
  it can get into the queue is `Stalls.OversizedRequestIsAdmitted`.
- The comment in the event state machine says that a PostToolUse without an explicit semantic phase restores
  the last active phase of the session (`src/gpu_steward/timeline/aggregate.py:239-241`). An event recorded
  without a phase is stored with the generic active one (`src/gpu_steward/timeline/codex.py:204-205`,
  `src/gpu_steward/timeline/store.py:512`), which then replaces the last one. So the promise is kept exactly if
  the event is stored with a phase that is not active and comes right after an event that left an active
  phase, which PreToolUse does not, or if the phase to restore is the generic one
  (`CodexLane.PostToolRestoresExactly`). Research followed by a tool end without a phase is no longer
  research (`CodexLane.ResearchIsReplaced`), and with a tool start in between it is not, whether or not the
  end is stored with the generic phase (`CodexLane.ResearchIsForgotten`).

## Behaviour that is easily overlooked

- A lone waiter on an idle host whose minimum exceeds what the reserve leaves never starts
  (`PlannerTheorems.SoloStartsExactly`, `Drain.StuckExactly`).
- In strict order a request whose minimum and maximum both exceed the host is planned without an error, and
  once it heads the queue nobody behind it is launched, silently (`Stalls.NobodyIsLaunched`).
- Release is idempotent (`docs/architecture-and-scheduling.md:23`) as far as leases and GPUs go
  (`StoreInvariant.LateFinishIsHarmless`). It rewrites a terminal status, though, so terminal statuses are
  absorbing together but not one by one (`StoreInvariant.TerminalRewrittenExactly`): a task recovered as
  failed becomes completed when its supervisor reports success (`StoreInvariant.OneRunsIsRewritten`).
- Display bars conserve time but not sample counts (`BarTheorems.SampleCountsKeptExactly`,
  `DisplayTicks.FoldedSampleIsNotCounted`).
- An override recorded without a creation time is stamped by the clock, so repeating the call is not a
  no-op (`TimelineStore.OverrideReplaysExactly`); with a named identifier the repetition is refused
  (`TimelineStore.NamedOverrideConflicts`).
- The coordinator's launch timeout governs recovery everywhere except in a cancellation whose process cannot
  be signalled, which recovers with the default of 300 seconds. It therefore releases another session's
  unclaimed launch that the session's own recovery would still wait for exactly when that launch's age lies
  between the two timeouts (`Scheduling.CancelRecoversEarlyExactly`).

## Model

| member | source | states |
|---|---|---|
| PlannerLoops.PlanAllocations | src/gpu_steward/scheduler.py:38-114 | the whole planner, loops included, returns exactly the declarative plan or the same refusal |
| PlannerLoops.GrantMinimums | src/gpu_steward/scheduler.py:81-90 | the selection loop picks exactly the greedy selection, grants each its minimum, and leaves the rest of the budget |
| PlannerLoops.GrowRoundRobin | src/gpu_steward/scheduler.py:92-103 | the growth loop ends at the closed form: minimum plus capped shares, with exactly the unspent units remaining |
| PlannerLoops.CutFree | src/gpu_steward/scheduler.py:105-114 | grants become consecutive slices of the free list |
| PlannerTheorems.ExtrasClosedForm | src/gpu_steward/scheduler.py:92-103 | growth is `k` whole rounds plus one unit for the first `p`, spends all spare units unless everyone is full |
| PlannerLoops.SharesDetermined | src/gpu_steward/scheduler.py:92-103 | shares that hand out the same amount are the same shares, whatever rounds produced them |
| PlannerTheorems.SharesFair | src/gpu_steward/scheduler.py:92-103 | a later waiter gets more extra than an earlier one only if the earlier is at capacity, and is at most one round behind otherwise |
| PlannerTheorems.SlicesFacts | src/gpu_steward/scheduler.py:105-114 | the slices concatenate to a prefix of the free list, with the granted sizes |
| PlannerTheorems.SelectLexGreatest | src/gpu_steward/scheduler.py:84-90 | the backfilling selection is feasible and lexicographically greatest in queue order |
| PlannerTheorems.SelectCharacterised | src/gpu_steward/scheduler.py:84-90 | being feasible and lexicographically greatest is the same as being the selection |
| PlannerTheorems.NoWaiterFitsLeftover | src/gpu_steward/scheduler.py:84-90 | no unselected waiter fits what is left |
| PlannerTheorems.StrictIsLongestPrefix | src/gpu_steward/scheduler.py:84-90 | strict mode selects exactly the longest affordable prefix of the queue |
| PlannerTheorems.StrictIsPrefixOfBackfill | src/gpu_steward/scheduler.py:84-90 | strict mode selects a prefix of what backfilling selects |
| PlannerOptimality.CheapestFirstIsMaximum | src/gpu_steward/scheduler.py:50-52 | as many of the smallest minimums as fit together is the largest number of jobs any feasible choice starts, and some choice attains it |
| PlannerOptimality.StartsMostExactly | src/gpu_steward/scheduler.py:81-90 | the selection starts as many jobs as any feasible choice if and only if, backfilling, no waiter taken crowds out others, or, in strict order, one more than the affordable prefix would not fit even from the cheapest |
| PlannerOptimality.PlanStartsMostExactly | src/gpu_steward/scheduler.py:50-52 | the same of the whole plan, for every input but the lone waiter on an idle host, in both modes |
| PlannerOptimality.StartsMostWhenAscending | src/gpu_steward/scheduler.py:84-90 | with minimums non-decreasing along the queue no feasible choice starts more jobs, in either mode |
| PlannerOptimality.BackfillCanStartFewer | src/gpu_steward/scheduler.py:50-52 | a concrete input with minimums 2, 1, 1 and two free GPUs whose plan starts one job although two fit |
| PlannerOptimality.StrictCanStartFewer | src/gpu_steward/scheduler.py:50-52 | a concrete input with minimums 3, 1 and two free GPUs whose strict plan starts nothing although one job fits |
| PlannerTheorems.PlanAcceptedExactly | src/gpu_steward/scheduler.py:21-27 | a plan is made if and only if the counts are plausible and every waiter's minimum is at most its own maximum, or the host if it has none |
| PlannerTheorems.SoloStartsExactly | src/gpu_steward/scheduler.py:73-79 | with no active job, no outside GPU and one waiter, it starts if and only if its minimum fits the free GPUs and what the reserve leaves of the host, with the stated grant |
| PlannerTheorems.LoneWaiterGets | src/gpu_steward/scheduler.py:73-114 | a lone waiter gets what is free up to its maximum, up to what the reserve leaves only when no job is active and no outside GPU is busy, and nothing if that is below its minimum |
| PlannerTheorems.BatchClosedForm | src/gpu_steward/scheduler.py:81-114 | every started waiter's slice size in closed form; a GPU stays free only if every started waiter is at capacity |
| PlannerTheorems.PlanSound | src/gpu_steward/scheduler.py:38-114 | launches name distinct waiters, are sized between minimum and capacity, and together cut a prefix of the free list |
| PlannerTheorems.PlanIgnoresListing | src/gpu_steward/scheduler.py:65-68 | the plan does not depend on the order in which waiters are listed |
| QueueOrder.LaunchedExactly | src/gpu_steward/scheduler.py:65-90 | beyond the solo case a waiter is launched if and only if its minimum fits what is left by the minimums of the launched waiters ahead of it by priority, age and id; in strict order, of all waiters ahead of it |
| QueueOrder.FirstInLineStarts | src/gpu_steward/scheduler.py:65-86 | the waiter with the highest priority, then the greatest age, then the smallest id starts if its minimum is free |
| QueueOrder.StrictLaunchesInOrder | src/gpu_steward/scheduler.py:84-90 | in strict order, with a waiter everybody ahead of it by priority, age and id is launched |
| QueueOrder.RefusalNamesFirst | src/gpu_steward/scheduler.py:21-27 | with plausible counts a plan is refused if and only if some waiter's size is impossible, for the fault of the first such waiter in line |
| QueueOrder.RefusesCounts | src/gpu_steward/scheduler.py:55-63 | which implausible count is refused with which error |
| StateStores.StateStore.Begin | src/gpu_steward/state.py:194-206 | a transaction opened inside another fails and undoes the outer one |
| StateStores.StateStore.Rollback | src/gpu_steward/state.py:194-206 | a failing transaction restores every table |
| StateStores.StateStore.ValidateInventorySignature | src/gpu_steward/state.py:277-293 | the stored signature is replaced, or refused with nothing changed |
| StateStores.StateStore.AddTask | src/gpu_steward/state.py:309-349 | admission checks and the inserted row |
| StateStores.StateStore.QueuedRequests | src/gpu_steward/state.py:386-401 | every queued task's request exactly once, from higher to lower priority, then from older to newer, then by ascending id |
| StateStores.StateStore.Reserve | src/gpu_steward/state.py:481-502 | row-by-row insertion succeeds if and only if no uniqueness constraint is violated |
| StateStores.StateStore.AllocateBatch | src/gpu_steward/state.py:445-504 | plan and insertion as one transition; outside a transaction a failure leaves the tables as they were |
| StateStores.ListingsAgree | src/gpu_steward/state.py:386-401 | two complete listings of the queue hold the same requests, so the stored order cannot influence a plan |
| StateStores.StateStore.ClaimTask | src/gpu_steward/state.py:506-532 | claim, re-claim, refusal and the no-op cases, with the whole new state |
| StateStores.StateStore.UpdateLeasePid | src/gpu_steward/state.py:534-546 | the hand-over from supervisor to child |
| StateStores.StateStore.ReleaseLeaseTx | src/gpu_steward/state.py:548-569 | the lease's GPU rows go, the lease is released, the task gets its final record |
| StateStores.StateStore.FinishTask | src/gpu_steward/state.py:571-588 | identity check and final status |
| StateStores.StateStore.RequestCancel | src/gpu_steward/state.py:590-612 | cancellation before start, while claimed, and after the end |
| StateStores.StateStore.RecoverStale | src/gpu_steward/state.py:614-643 | releasing stale leases one by one, over a list taken at the start, equals releasing them all at once |
| StateStores.RecoverOneMore | src/gpu_steward/state.py:614-643 | one more release after a joint release is the joint release of one more |
| StoreInvariant.StepKeeps | src/gpu_steward/state.py:239-255 | every operation, with any arguments, keeps status, lease shape, GPU rows and sizes consistent and takes nothing back |
| StoreInvariant.RunKeeps | src/gpu_steward/state.py:445-643 | the same over whole runs: ranks never fall, sizes and granted GPUs never change |
| StoreInvariant.ReachableConsistent | src/gpu_steward/state.py:249-255 | in every reachable database no GPU belongs to two active leases |
| StoreInvariant.TerminalHoldsNothing | src/gpu_steward/state.py:548-588 | a terminal task stays terminal and never again holds a lease or a GPU |
| StoreInvariant.LeasedAtMostOnce | src/gpu_steward/state.py:239-248 | each task gets one lease ever; a released lease is never altered, an active one keeps its GPUs |
| StoreInvariant.LeaseEndsExactly | src/gpu_steward/state.py:571-643 | an active lease ends if and only if: a finish carries its exact identity, or recovery finds it stale, or it is cancelled before any claim |
| StoreInvariant.ClaimRecordsClaimer | src/gpu_steward/state.py:506-532 | claiming a reserved task records the claimer's identity and both moments, starts the task, and changes nothing else |
| StoreInvariant.ClaimedAgainExactly | src/gpu_steward/state.py:506-532 | a running task is handed out again without change to the very process that holds it, and refused to everybody else |
| StoreInvariant.ClaimIsExclusive | src/gpu_steward/state.py:506-532 | over any run in which the task keeps its lease and the claimer does not hand it over, no other process obtains it: refused while running, nothing to claim while cancelling |
| StoreInvariant.HandOverMovesFinish | src/gpu_steward/state.py:534-588 | after the hand-over a finish is accepted if and only if it carries the child's identity, and the supervisor cannot hand over again |
| StoreInvariant.CancelKeepsClaimedGpus | src/gpu_steward/state.py:590-612 | cancelling a claimed task changes no lease and frees no GPU |
| StoreInvariant.LateFinishIsHarmless | src/gpu_steward/state.py:571-588 | a finish after recovery frees no GPU since re-leased and touches no other task |
| StoreInvariant.TerminalRewrittenExactly | src/gpu_steward/state.py:579-588 | a terminal status changes if and only if a finish of that task reports otherwise |
| StoreInvariant.LateSuccessRewritesFailure | src/gpu_steward/state.py:571-643 | a running task whose process died is recovered as failed and becomes completed when its supervisor then reports success |
| StoreInvariant.OneRunsIsRewritten | src/gpu_steward/state.py:571-643 | a concrete database on which that happens |
| StoreInvariant.HeldFreezesSignature | src/gpu_steward/state.py:277-293 | the signature is the same at both ends of any run during which a task keeps its lease |
| Records.FinishRecords | src/gpu_steward/state.py:571-588 | a finish with the lease's identity releases the lease with its GPUs and records moment, code and message; running ends as completed by code 0 and as failed otherwise, cancelling as cancelled |
| Records.CancelRecords | src/gpu_steward/state.py:590-612 | an unclaimed task ends cancelled with code 130 and gives its GPUs back; a running one is marked; any other is left alone |
| Records.CancelReturns | src/gpu_steward/state.py:599-612 | the request returns the lease whose process is to be signalled, or that an ended task once had |
| Records.RecoveryRecords | src/gpu_steward/state.py:614-643 | recovery ends exactly the tasks whose recorded process is gone, or replaced, or whose launch is older than the timeout, as failed or as cancelled, and leaves every other task alone |
| Records.AddRecords | src/gpu_steward/state.py:309-349 | a request is accepted if and only if it has a command, an existing directory, plausible sizes and a new id; then exactly these values are queued; which error otherwise |
| Records.UnknownTask | src/gpu_steward/state.py:372-378 | claim, finish and cancel of an unknown task say so, a hand-over finds no lease |
| Records.NothingToClaimExactly | src/gpu_steward/state.py:506-518 | a claim returns nothing, without an error, if and only if the task waits, is being cancelled, or is over |
| Records.StrangersAreRefused | src/gpu_steward/state.py:534-588 | a finish is refused if and only if an active lease records another identity; a hand-over if and only if there is no active lease or it records another supervisor |
| Records.InventoryRefusals | src/gpu_steward/state.py:277-293 | an inventory is refused if and only if it is empty, repeats a GPU, or differs from the stored one while some lease is active |
| Records.RunDocuments | src/gpu_steward/state.py:209-248 | every run keeps the records truthful: moments, exit code and message go with the status, claim and release times with the lease |
| Records.ReachableDocumented | src/gpu_steward/state.py:209-248 | in every reachable database completed means exit code 0, failed means another code or none after recovery, and only started tasks run |
| Coordinators.Coordinator.LookLocked | src/gpu_steward/runtime.py:63-106 | recovery, signature check and classification commit together or not at all |
| Coordinators.Coordinator.Schedule | src/gpu_steward/runtime.py:108-121 | view and allocation as two transactions, with the state each failure leaves |
| Coordinators.Coordinator.Enqueue | src/gpu_steward/runtime.py:183-202 | an accepted task is queued, a refused one leaves no trace |
| Coordinators.Coordinator.EnterRun | src/gpu_steward/runtime.py:227-243 | enqueue, schedule and claim as one section |
| Coordinators.Coordinator.PollRun | src/gpu_steward/runtime.py:245-259 | one turn of the waiting loop |
| Coordinators.Coordinator.Withdraw | src/gpu_steward/runtime.py:268-286 | a failed invocation withdraws its unclaimed request |
| Coordinators.Coordinator.Cancel | src/gpu_steward/runtime.py:391-405 | cancel, signal, and recover at once when the process cannot be signalled |
| Protocol.SectionIsRun | src/gpu_steward/runtime.py:183-417 | every locked section amounts to a run of store operations that allocate only inside the stored inventory |
| Protocol.ProtocolKeeps | src/gpu_steward/runtime.py:183-417 | every interleaving of any number of sessions keeps the invariant and takes nothing back |
| Protocol.EveryReachableWorld | src/gpu_steward/runtime.py:183-417 | in every world reachable from the empty database the invariant holds and every recorded start time lies before that of the next process |
| Protocol.SignatureFrozenWhileLeased | src/gpu_steward/state.py:277-293 | the inventory signature never changes over a stretch of a protocol run in which a task keeps its lease |
| Protocol.LeasesNeverLeaveInventory | src/gpu_steward/runtime.py:70-76 | the check that leased GPUs are known never fires in a reachable world |
| Protocol.EventPast | src/gpu_steward/processes.py:36-57 | one event, whichever it is, keeps all recorded start times before the start time of the next process |
| Protocol.DeadStaysDead | src/gpu_steward/processes.py:36-57 | once the process recorded in a lease is gone, no later process with its PID is mistaken for it |
| Protocol.LiveLeaseSurvives | src/gpu_steward/runtime.py:304-360 | while the recorded process lives, only its supervisor's hand-over or a finish with its exact identity changes its lease |
| Scheduling.ViewPartitions | src/gpu_steward/runtime.py:70-98 | leased, external and free GPUs partition the snapshot |
| Scheduling.ScheduleRefinesPlan | src/gpu_steward/runtime.py:108-121 | one schedule step places exactly the planned slices and nothing else, or keeps only the view's effects; no insertion fails |
| Scheduling.NewLeasesAreSound | src/gpu_steward/runtime.py:77-92 | new leases go to waiting tasks, take free GPUs only, are disjoint from all others, and sized between minimum and capacity |
| Scheduling.ViewSucceedsExactly | src/gpu_steward/runtime.py:63-106 | a view succeeds if and only if the inventory is non-empty without duplicates and unchanged, new, or unleased after recovery |
| Scheduling.ViewFailsExactly | src/gpu_steward/runtime.py:63-106 | a view fails for lack of a usable inventory, or because it changed while a lease outlives recovery, and for no other reason |
| Scheduling.ScheduleSucceedsExactly | src/gpu_steward/runtime.py:108-121 | a schedule step succeeds if and only if the view does and every waiting request fits its own bounds on this host |
| Scheduling.OversizedRequestStallsEverybody | src/gpu_steward/state.py:322-325 | past one waiting unbounded request larger than the host, a schedule step launches nobody and ends with an error that triggers no withdrawal |
| Scheduling.WithdrawLeavesNoOrphan | src/gpu_steward/runtime.py:268-286 | after withdrawing, no queued or unclaimed task of the invocation is left, and nothing claimed is touched |
| Scheduling.EntryOutcome | src/gpu_steward/runtime.py:227-243 | a first arrival ends up running its own lease within its bounds, or queued without a lease, or refused without a reservation |
| Scheduling.CancelRecoversEarlyExactly | src/gpu_steward/runtime.py:391-399 | a cancellation whose process cannot be signalled releases another, unclaimed lease that the session's own recovery keeps if and only if its age lies between the default and the session's launch timeout |
| StepLaunches.LoneTaskGets | src/gpu_steward/runtime.py:108-121 | the only waiting task gets what is free up to its maximum and, on a host without leases and outside processes, up to what the reserve leaves; otherwise it goes on waiting |
| StepLaunches.TaskLeasedExactly | src/gpu_steward/runtime.py:108-121 | otherwise a waiting task is leased if and only if its minimum fits what those ahead of it leave of the free GPUs |
| StepLaunches.FirstTaskIsLeased | src/gpu_steward/runtime.py:108-121 | the waiting task first by priority, age and id is leased if its minimum is free |
| Outcomes.PollOutcome | src/gpu_steward/runtime.py:245-261 | a poll reports the final record if and only if the task is over; else its own running lease, a wait, or an error |
| Outcomes.GivingUp | src/gpu_steward/runtime.py:262-286 | timing out or failing ends an unclaimed task as cancelled with its GPUs given back; a claimed one is marked by the timeout and left alone by the failure |
| Outcomes.CancelSparesOthers | src/gpu_steward/runtime.py:391-399 | a cancellation whose signal is delivered is the cancel request alone |
| Outcomes.CancelOfOver | src/gpu_steward/runtime.py:391-399 | cancelling a task that is over changes nothing |
| Outcomes.UnknownToSections | src/gpu_steward/runtime.py:245-286 | poll and cancellation of an unknown task are refused, and a withdrawal does nothing |
| Outcomes.CrashReturnsGpus | src/gpu_steward/runtime.py:407-417 | once the recorded process has exited, whatever else happens short of a hand-over and whoever gets its PID, the next collection leaves the task over and without GPUs |
| Drain.ProgressIsBounded | src/gpu_steward/state.py:469-588 | without arrivals any run advances tasks at most four times per task |
| Drain.IdlePlanExactly | src/gpu_steward/scheduler.py:70-91 | an idle host's plan is refused if and only if some waiter does not fit its own bounds; otherwise it launches nothing if and only if the queue is empty, holds one waiter above the solo budget, or holds several of which the head, in strict order, or every one, backfilling, exceeds the host |
| Drain.StuckExactly | src/gpu_steward/runtime.py:245-267 | service can advance nobody if and only if nothing is leased and, in each mode in use, an idle host's plan is refused or launches nothing |
| Drain.StuckIsDrained | src/gpu_steward/runtime.py:245-267 | if every waiting minimum fits the host, that state is one with at most one waiter, above the solo budget |
| Drain.Drains | src/gpu_steward/runtime.py:245-267 | from every reachable state of a closed host at most four service steps per task lead to a stuck state, which is a drained one if every waiting minimum fits the host |
| Drain.EveryServiceRunDrains | src/gpu_steward/runtime.py:245-267 | every service run whose steps all advance some task is at most four steps per task long, and cannot be continued if and only if it has reached a stuck state, which means drained if every waiting minimum fits the host |
| Stalls.StrictHeadBlocksPlan | src/gpu_steward/scheduler.py:84-90 | in strict order a plan starts nobody behind a head that exceeds the free GPUs |
| Stalls.NobodyIsLaunched | src/gpu_steward/runtime.py:108-121 | while an unbounded request, or one at the head of a strict queue, needs more than the host has, no task gets a lease over any run that neither ends that request nor finds a larger host nor, if it is bounded, lets anybody in ahead of it |
| Stalls.OversizedRequestIsAdmitted | src/gpu_steward/state.py:322-325 | on an empty four-GPU host a request for at least five without a maximum is queued, and its own invocation fails with an error that does not withdraw it |
| FileLocks.SessionLock.TryEnter | src/gpu_steward/state.py:166-185 | nested entries share the file lock; the outermost takes it, or has to wait |
| FileLocks.SessionLock.Leave | src/gpu_steward/state.py:186-192 | the file lock is given back at depth zero only |
| FileLocks.SectionsAreAtomic | src/gpu_steward/state.py:165-192 | in any interleaving of single instructions at most one section is inside, and the data is that of whole sections in a row |
| FileLocks.SomebodyIsReady | src/gpu_steward/state.py:165-192 | as long as a section is unfinished some section can step |
| Arrivals.EntryIsEnter | src/gpu_steward/runtime.py:227-243 | the entry section's steps, run without interruption, leave the database as the coordinator's entry section does, whether it succeeds or fails at any step |
| Arrivals.TwoArrivals | src/gpu_steward/runtime.py:228-243 | in every interleaving of two default arrivals on an idle host one runs on all GPUs but the reserve and the other on exactly the reserve |
| Arrivals.BothVisibleSplitEvenly | src/gpu_steward/runtime.py:228-231 | had both been queued before the first schedule they would have split evenly, 2 and 2 on four GPUs |
| Intervals.Union | src/gpu_steward/timeline/aggregate.py:541-549 | sorted, non-empty, strictly separated intervals that cover exactly the input's points |
| Intervals.NormalCanonical | src/gpu_steward/timeline/aggregate.py:541-549 | such a list is determined by the points it covers |
| Intervals.UnionsAgreeExactly | src/gpu_steward/timeline/aggregate.py:541-549 | two unions are identical if and only if their inputs cover the same points |
| Intervals.IntersectionDuration | src/gpu_steward/timeline/aggregate.py:552-566 | the two-pointer sweep returns the measure of the points covered on both sides, for arbitrary inputs |
| Intervals.OverlapCommutes | src/gpu_steward/timeline/aggregate.py:552-566 | that measure is commutative |
| Intervals.OverlapBounds | src/gpu_steward/timeline/aggregate.py:621-644 | the overlap is at most either list's summed duration and at most the window |
| Tiling.AppendedLane | src/gpu_steward/timeline/aggregate.py:117-128 | appending extends a lane without holes to the end of the new stretch |
| Tiling.AppendedCarries | src/gpu_steward/timeline/aggregate.py:117-128 | afterwards every segment shows, tick by tick, what it showed before or the new metadata |
| Tiling.LaneHasTick | src/gpu_steward/timeline/aggregate.py:117-128 | in a lane without holes every tick of its span, and no other, lies in a segment, and in exactly one |
| Bars.CoalesceGpuSegments | src/gpu_steward/timeline/aggregate.py:170-215 | the two passes, with in-place rewriting of the prepared bars, compute the declarative folding |
| Bars.FamilyIdempotent | src/gpu_steward/timeline/aggregate.py:131-145 | a display family fed back as the task name stays the same |
| BarTheorems.CoalescingConservesTime | src/gpu_steward/timeline/aggregate.py:158-213 | same span without holes; each bar is observed plus bridged time; the bars account for the whole lane; each occupied key keeps its raw observed time |
| BarTheorems.CoalescingNormalForm | src/gpu_steward/timeline/aggregate.py:170-215 | neighbours differ, no short quiet run between equal occupied keys is left, and each tick shows the key its prepared bar has, or that around a short quiet run of prepared bars |
| DisplayTicks.PrepareShows | src/gpu_steward/timeline/aggregate.py:158-193 | the prepared bars show exactly the raw segment's key at every tick |
| DisplayTicks.DisplayShowsRaw | src/gpu_steward/timeline/aggregate.py:158-213 | at every tick the display shows exactly the key around a short quiet gap of the raw lane that the tick lies in, and outside all gaps the raw segment's own key |
| BarTheorems.CoalescingIsStable | src/gpu_steward/timeline/aggregate.py:170-215 | a second run leaves every bar's start, end and key unchanged |
| BarTheorems.SampleCountsKeptExactly | src/gpu_steward/timeline/aggregate.py:158-213 | sample counts add up to the raw segments if and only if nothing was folded |
| BarOrigins.BarsOriginate | src/gpu_steward/timeline/aggregate.py:158-213 | every bar starts with a raw segment, whose state, name, attribution and sample it shows, and ends with one, whose sample it records last |
| BarOrigins.GapsCountFolds | src/gpu_steward/timeline/aggregate.py:158-213 | a bar counts gaps if and only if it contains bridged time, and all gaps together are the occupied bars that folding saved |
| BarOrigins.NamedExactly | src/gpu_steward/timeline/aggregate.py:131-155 | a segment has a display name if and only if it is neither idle nor unknown |
| BarOrigins.ExplicitNamesStay | src/gpu_steward/timeline/aggregate.py:131-145 | explicitly named jobs keep their names |
| BarOrigins.PythonsAreOne | src/gpu_steward/timeline/aggregate.py:131-145 | all Python interpreters share one name unless a job was named |
| BarOrigins.OtherNamesStay | src/gpu_steward/timeline/aggregate.py:131-145 | any other process shows its own name, as written, unless it is a placeholder |
| DisplayTicks.FoldedSampleIsNotCounted | src/gpu_steward/timeline/aggregate.py:158-213 | a concrete lane of three samples whose display counts fewer |
| GpuLane.GpuReport.AddLane | src/gpu_steward/timeline/aggregate.py:429-488 | the segments tile the lane from the later of window and first sample to the earlier of window end and the moment of the report, each tick with what is known then, and the totals grow by exactly those ticks |
| GpuLane.GpuReport.AppendGpuInterval | src/gpu_steward/timeline/aggregate.py:504-538 | clipping, extension of an equal neighbour, and the totals |
| GpuLane.CreditBound | src/gpu_steward/timeline/aggregate.py:437-441 | no state lasts longer than the sample gap times the samples that reported it |
| CodexLane.CodexReport.AddLane | src/gpu_steward/timeline/aggregate.py:279-364 | the segments tile the lane, also when the window ends after the moment of the report, with what the session is doing at each tick, and the totals grow by exactly those ticks |
| CodexLane.CodexReport.AppendCodexInterval | src/gpu_steward/timeline/aggregate.py:377-410 | clipping, extension of an equal neighbour, and the totals |
| CodexLane.LaneTimeSplits | src/gpu_steward/timeline/aggregate.py:403-410 | active, waiting and stalled time add up to the lane without its idle phases |
| CodexLane.DerivedStallExactly | src/gpu_steward/timeline/aggregate.py:314-351 | a segment is a derived stall if and only if it lies in the tail that begins the stall time after the last event of an active session without a running tool |
| CodexLane.LaneReaches | src/gpu_steward/timeline/aggregate.py:279-364 | a lane reaches exactly the ticks of the window up to the last event or, if that is later, the moment of the report |
| CodexLane.WaitsAfter | src/gpu_steward/timeline/aggregate.py:230-237 | from the end of a turn to the next event the session waits for the user, from the start of a tool for the tool, however long |
| CodexLane.ActsAfterTool | src/gpu_steward/timeline/aggregate.py:238-245 | from the end of a tool to the next event the session is active without a tool, in its named phase if active; with no next event it is stalled from the stall time on |
| CodexLane.ShowsNamedPhase | src/gpu_steward/timeline/aggregate.py:246-255 | any other event shows the phase it names up to the next event; an active one without a running tool turns into a stall if none comes |
| CodexLane.PostToolForgetsPhase | src/gpu_steward/timeline/aggregate.py:230-255 | after PreToolUse, PostToolUse leaves its own active phase or the generic one, never an earlier phase |
| CodexLane.PostToolRestoresExactly | src/gpu_steward/timeline/aggregate.py:238-244 | a PostToolUse that names no semantic phase, stored as the generic one or as one that is not active, restores the last active phase of the session if and only if it is stored with a phase that is not active right after an event that left an active one, or the phase to restore is the generic one |
| CodexLane.ResearchIsForgotten | src/gpu_steward/timeline/aggregate.py:238-244 | after research, PreToolUse and any PostToolUse that names no semantic phase, the phase is generic although the last active one was research |
| CodexLane.ResearchIsReplaced | src/gpu_steward/timeline/aggregate.py:238-244 | after research and a PostToolUse stored with the generic phase, the phase is generic, even with no PreToolUse in between |
| DayReport.BuildDay | src/gpu_steward/timeline/aggregate.py:585-653 | the report's lanes are the tiles and bars of exactly the sessions and GPUs with time in the day, inside the day and before the moment of the report; each number counts the ticks it should; overlap is at most active time, training time and the day; nothing is reported if and only if the day has not begun or nothing was recorded before its end and the moment; which error when |
| DayReport.CodexLanes | src/gpu_steward/timeline/aggregate.py:258-374 | one tiled lane per session with time in the day, totals over all sessions, and active intervals that cover exactly the ticks with an active session |
| DayReport.GpuLanes | src/gpu_steward/timeline/aggregate.py:413-501 | one lane of bars per GPU with time in the day, totals over all GPUs, and training intervals that cover exactly the ticks with a training GPU |
| DayReport.OneGpuLane | src/gpu_steward/timeline/aggregate.py:429-500 | the bars are the folded tiles, span the lane without a hole and account for all of its time |
| DayReport.GpuTotalBound | src/gpu_steward/timeline/aggregate.py:437-441 | over all GPUs of the day no observed state lasts longer than the sample gap times the samples that report it |
| DayReport.SummaryBalances | src/gpu_steward/timeline/aggregate.py:627-641 | in the day's summary active, waiting and stalled time add up to the length of all session lanes without their idle phases, and training and idle time are at most the sample gap times the samples that report them |
| DayMeaning.ActiveTickExactly | src/gpu_steward/timeline/aggregate.py:230-364 | a session counts as active at a tick if and only if the tick is in the day and before the moment of the report, the event recorded last by time and id leaves it active, and it has not been silent for the stall time without a tool |
| DayMeaning.WaitingTickExactly | src/gpu_steward/timeline/aggregate.py:230-364 | it counts as waiting if and only if that event starts a tool, ends a turn or names a waiting phase |
| DayMeaning.StalledTickExactly | src/gpu_steward/timeline/aggregate.py:230-364 | it counts as stalled if and only if that event says so, or left it active without a tool and nothing has followed for the stall time |
| DayMeaning.LatestSampleDecides | src/gpu_steward/timeline/aggregate.py:413-501 | what is known of a GPU is the sample taken last by time and id, word for word while it is younger than the gap, and afterwards only its number |
| DayMeaning.GpuTickExactly | src/gpu_steward/timeline/aggregate.py:413-501 | a GPU counts as training or idle at a tick if and only if the tick is in the day and before the moment, and that sample says so and is younger than the gap |
| DayMeaning.OverlapTickExactly | src/gpu_steward/timeline/aggregate.py:642-643 | the overlap counts exactly the ticks of the day at which some session is active and some GPU is training |
| TimelineStore.Log.Record | src/gpu_steward/timeline/store.py:563-597 | an append is a new row, a no-op, or a conflict that changes nothing |
| TimelineStore.Log.RecordBatch | src/gpu_steward/timeline/store.py:723-740 | a batch is recorded as a whole or leaves the table as it was |
| TimelineStore.AllRecordedExactly | src/gpu_steward/timeline/store.py:563-597 | a batch succeeds if and only if all its rows are well formed and agree with the table and with each other; then exactly the offered ids are added, each with its content |
| TimelineStore.RunGrows | src/gpu_steward/timeline/store.py:563-740 | over any sequence of calls the table only grows |
| TimelineStore.CallReplays | src/gpu_steward/timeline/store.py:563-597 | a call repeated at any later time is answered the same way and changes nothing |
| TimelineStore.ReplayChangesNothing | src/gpu_steward/timeline/store.py:563-740 | replaying a whole history, refused calls included, changes nothing |
| TimelineStore.OverrideReplaysExactly | src/gpu_steward/timeline/store.py:802-852 | repeating an override call later is a no-op if and only if the call names its creation time, or the row it would then record is already there under its digest |
| TimelineStore.NamedOverrideConflicts | src/gpu_steward/timeline/store.py:802-852 | a named override without a creation time is refused when it is repeated a tick later |
| TimelineStore.CurrentOverrides | src/gpu_steward/timeline/store.py:968-989 | the first-wins scan gives each field with an override in force the value of the prevailing one |
| TimelineStore.LatestOverrideWins | src/gpu_steward/timeline/store.py:968-989 | a field is resolved if and only if some override of it is in force, to the one latest in effect, then latest created, then of greatest id |
| TimelineStore.NewOverrideTakesEffect | src/gpu_steward/timeline/store.py:801-850 | an override recorded now without times decides its field from now until it ends against everything before |
| TimelineStore.NewOverrideLeavesThePast | src/gpu_steward/timeline/store.py:801-850 | it changes no resolution as of an earlier moment or of another target |
| TimelineStore.ResolutionIgnoresInsertion | src/gpu_steward/timeline/store.py:968-989 | resolved values do not depend on the order of insertion |

## Left out

- PlannerLoops.PlanAllocations: requires distinct request ids, because the only caller in the program passes rows keyed by the primary key `task_id`; the source accepts duplicate ids and would let the later capacity win.
- PlannerLoops.GrantMinimums: requires distinct request ids, for the same reason.
- PlannerLoops.GrowRoundRobin: requires distinct request ids, for the same reason.
- CodexLane.CodexReport.AddLane: requires a positive stall time, which `build_day` checks and the diagnostic list of derived stalls does not.
- Bars.FamilyIdempotent: lower-cases ASCII letters only and does not strip white space.
- BarOrigins.PythonsAreOne: lower-cases ASCII letters only, for the same reason.
- BarOrigins.OtherNamesStay: lower-cases ASCII letters only, for the same reason.
- Protocol.DeadStaysDead: assumes that every process gets a later start time than all before it; the source compares clock ticks, so two processes that use one PID within the same tick would look alike.
- StateStores.StateStore.RecoverStale: gives the recovered tasks as a set, not as a list in order of reservation time.
- DayReport.BuildDay: takes sessions and samples already grouped into non-empty lanes and with overrides applied; the lane identifiers and labels of the output are not modelled.
- FileLocks.SessionLock.TryEnter: fails where the source blocks; the waiting itself, the thread lock beside the file lock and an I/O error while locking are not modelled.
- Launching commands, building their environment, signals and their escalation, exit-code normalisation, reading `/proc` and the fallback for hosts without it: a process event, a process table and the delivery of a signal are inputs.
- The wall clock: each section reads it once here, where the source may read it again between its transactions.
- SQL text, JSON encoding, file permissions and database errors other than violated uniqueness.
- Queue tasks' command, directory and label columns, beyond whether they are acceptable; lease identifiers, which are one to one with leased tasks.
- The inventory and GPU probes: a snapshot is a list of GPUs with the set of busy ones.
- Vocabulary normalisation, label sanitising, hashing and white-space stripping in the timeline: an offered row is well formed or not, and its digest is a parameter.
- Rounding of report numbers, timezone and day-boundary computation, and the diagnostic list of derived stalls over an unbounded window.
- The command line, the web page, the collector's cadence and the service installation: input, output and operating-system services.
