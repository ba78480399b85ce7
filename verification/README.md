# Verified model of the skawld SDK core

The project models the parts of the Go SDK that keep state or carry an algorithm with a
non-obvious answer, and proves what they promise:

- **Execution leases and checkpoints** (`workflow/`). Workers share one store, take leases that
  carry a fencing token and write checkpoints by comparing revisions. `ExecutionStore.dfy` is the
  store as a class with a ghost history of grants and writes; `ExecutionRuns.dfy` speaks about
  every interleaving of store steps; `Recovery.dfy` says what recovery, cancellation and the
  handling of an interrupted step write and exactly when the store takes it;
  `LeaseEffects.dfy` says what each step achieves and how long a lease lasts in every run;
  `HistoryTells.dfy` proves the ghost history a true record of the steps;
  `Progress.dfy` does the same for what the run loop writes; `ExecutionExamples.dfy` holds two
  runs in which a promise fails.
- **Audit outbox and delivery workers** (`audit/`). Leases here know only an owner's name.
  `Deliveries.dfy` proves that, with distinct names and one `RunOnce` at a time per worker, the
  name refuses exactly what a fencing token would; `OverlappingRuns.dfy` drops that rule and says
  exactly whose reports are taken then; `OutboxEffects.dfy` says field by field what a step does to
  an item and how long a lease or a planned retry keeps it back; `DeliveryWorker.dfy` is one poll
  and the health over many.
- **Task dependencies** (`sessions/memory.go`). Two mirrored edge lists per task, edited in place
  on a copy, and a depth-first search for cycles; `TaskEffects.dfy` says what a patch does to the
  fields.
- **Algorithms with a simple meaning**: grep context rendered in one pass and by merged ranges,
  redaction rules in map order, the two-row longest common subsequence, the search for fields
  that decide the next action.
- **Provider streams and history compaction** (`loop.go`, `compaction.go`, `session.go`).
  `StreamBlocks.dfy` finds the place of every block in the stream.
- **Shell-like scanners and command rules** (`permissions/engine.go`, `skills/args.go`).
  `Spellings.dfy` writes words in every way the scanners know, `RuleLaws.dfy` speaks of positions
  in the rule list.

Each operation that changes state is a method (mostly of a class) whose contract gives the new
state through a function of the old one; the theorems are about those functions. Every locked
method of the program is one atomic step, and the clock it read is one of its arguments. Map
iteration is a choice of an arbitrary remaining key, so what is proved holds for every order.

## What does not hold as one might expect

- A fencing token is to keep a stale worker from writing after another has taken over
  (workflow/execution_lease.go:14-16). It does so while a lease record stands. Once the later
  tenure is released and has written nothing, the earlier token writes again:
  `SupersededWriteAcceptedIff` gives the exact condition over all runs,
  `SupersededWriteAfterRelease` a run.
- A lease record that has run out cannot be renewed or released and blocks every writer, also the
  one that held it; the execution stays as it is until someone claims it again
  (`ExpiredRecordFreezesExecution`).
- A renewal replaces the limit, also by an earlier one: a holder that renews for a shorter time
  gives up the rest (`RenewEffect`). What a lease is worth until then is `LeaseLastsToItsLimit`.
- `ResumeStored` looks at the status it reads; by the time of the claim the execution may wait for
  an approval. `resumeInterrupted` does not look again: the store refuses what it writes exactly
  unless the execution is running or already waits for recovery
  (`InterruptionAcceptedIffRunning`; `InterruptionRefusedAfterApproval` is such a run).
- `resumeInterrupted` bounds the position in the checkpoint by the version's number of steps. On a
  valid checkpoint it panics exactly when all of its steps are done and the version has more
  (`PanicsIffVersionHasMoreSteps`).
- `Recover` and `Cancel` compare the actor, and `Cancel` the terminal status, with the checkpoint
  that is passed in; what the claim returned is not compared again.
- Two runs under one worker name defeat the outbox lease. `ReportIsTakenIff` says exactly whose
  reports are taken when runs overlap: a superseded run's, exactly while the claim that superseded
  it is open under the same name. `TwoRunsUnderOneNameBreakTheFence` is such a run.
- `RunOnce` reads the clock once to plan a retry and again to report the failure. The outbox takes
  the report exactly when the second reading is not later than the planned retry
  (`TimelyIsRecorded`; `LateReportIsRefused` is one that is refused).
- A poll interrupted by shutdown is to leave the health record as it was. The worker goes by the
  kind of error, so a sink that always runs into its own deadline is taken for a shutdown, and its
  failures never show (`DeadlinesStayUnseen`).
- `Worker.backoff` can exceed the doubled base cut at the ceiling by one nanosecond, because it
  compares with half of the ceiling rounded down. `DelayIsDoubledUnderCeiling` gives the exact
  condition, `OddCeilingIsReached` an example.
- `NewRedactor` trims its configured paths, so two spellings of one path can ask for different
  actions and map order decides. `RulesFixedIffUnambiguous` says exactly when it does not matter;
  `TwoSpellings` is an example.
- Compaction keeps messages of nothing but tool results with their calls
  (`CompactionKeepsResultPairs`). A user message that answers a call and adds text opens a turn,
  and a cut there leaves its call behind: `CompactionKeepsPairs` gives the exact condition,
  `MixedMessageLosesItsCall` an example.
- The search for deciding fields takes a field whose recorded text is `<missing>` for an absent one
  (`SameValueIff`).
- A single ampersand does not cut a command, so a rule for what stands in front of it covers what
  stands behind it (`AmpersandIsNoOperator`).
- A deny rule behind an allow rule for the same segment takes effect once another segment of the
  command matches no rule at all (`BashVerdict`; `ShadowedDenyTakesEffect` is an example).

## Model

| member | source | states |
|---|---|---|
| `ExecutionStore.MemoryExecutionStore.constructor` | workflow/execution_store.go:71-76 | A new store holds no execution, lease or token. |
| `ExecutionStore.MemoryExecutionStore.Create` | workflow/execution_store.go:78-106 | Creates revision 1 of an unknown, valid execution of the caller, or refuses with the error kind of the first failing check; the lease tables do not change. |
| `LeaseEffects.CreateEffect` | workflow/execution_store.go:78-106 | A created execution is stored with every field as given, revision 1 and the time of the creation. |
| `ExecutionStore.MemoryExecutionStore.Update` | workflow/execution_store.go:108-157 | Stores the next revision exactly when the caller owns the stored record, the lease lets it through, the revision is the stored one and the update is valid, or refuses with the error kind of the first failing check; the history records the write with its lease. |
| `LeaseEffects.UpdateEffect` | workflow/execution_store.go:108-157 | An accepted update stores every field as given under the next revision and its stamp, and touches no other execution and no lease. |
| `ExecutionStore.MemoryExecutionStore.TryUpdate` | workflow/execution_store.go:108-157 | The checks of an update in order, each with its error kind. |
| `ExecutionStore.RequireExecutionClaim` | workflow/execution_lease.go:330-359 | No record lets a write through; an expired one blocks all; a live one lets only its own execution, owner and token through. |
| `ExecutionStore.MemoryExecutionStore.ClaimExecution` | workflow/execution_lease.go:78-134 | Grants the next fencing token when no lease is live, extends a live lease of the same owner without a new token, and refuses otherwise; nothing else changes. |
| `LeaseEffects.ClaimEffect` | workflow/execution_lease.go:78-134 | A claim is granted exactly for an open execution that no other owner holds; the lease then runs until now + duration under the token the owner has or else under a new one. |
| `LeaseEffects.ClaimLasts` | workflow/execution_lease.go:78-134 | A granted or extended lease lasts until then in every run that follows, as after a renewal. |
| `ExecutionStore.MemoryExecutionStore.ClaimReadyExecutions` | workflow/execution_lease.go:136-200 | Grants tokens, ascending in (time, id) order, to the oldest ready executions up to the limit and leaves every other record as it was, whatever the map order. |
| `ExecutionStore.MemoryExecutionStore.RenewExecution` | workflow/execution_lease.go:202-239 | Extends the live lease of exactly this owner and token, and never issues a token. |
| `LeaseEffects.RenewEffect` | workflow/execution_lease.go:202-239 | A renewal is accepted exactly from the holder before the limit; then record and returned claim have the same owner and token and the limit now + duration; otherwise nothing changes. |
| `LeaseEffects.RenewalLasts` | workflow/execution_lease.go:202-239 | In every run that follows an accepted renewal, until now + duration nobody is handed a token for the execution and the record stays, unless the holder claims, renews or releases. |
| `LeaseEffects.LeaseBounds` | workflow/execution_lease.go:275-289 | A lease may run from a second to a day, under a one-line name of at most 256 characters. |
| `ExecutionStore.MemoryExecutionStore.ReleaseExecution` | workflow/execution_lease.go:241-273 | Removes the lease record of exactly this owner and token. |
| `LeaseEffects.ReleaseEffect` | workflow/execution_lease.go:241-273 | A release is accepted exactly from the holder before the limit, or of an unknown execution, and deletes the record and nothing else. |
| `LeaseEffects.ReleaseFrees` | workflow/execution_lease.go:78-273 | The next claim of a released execution, by whomever, is granted. |
| `ExecutionStore.ClaimReadyTakesTheOldest` | workflow/execution_lease.go:136-200 | A ready-claim takes the Limit least ready executions in (time, id) order: none is passed over for a newer one, each taken lease had passed, and every other record stays. |
| `LeaseEffects.ReadyIff` | workflow/execution_lease.go:150-165 | Such a claim chooses among exactly the tenant's executions of an asked-for status whose lease is gone or has passed. |
| `LeaseEffects.ReadyBounds` | workflow/execution_lease.go:289-318 | A worker may ask for up to a thousand executions that run or wait for an approval, and no others. |
| `LeaseEffects.ReadyClaimLasts` | workflow/execution_lease.go:136-200 | So does every lease that a ready-claim hands out. |
| `LeaseEffects.LeaseLastsToItsLimit` | workflow/execution_lease.go:78-273 | Along every run of steps before a lease's limit that are not the holder's own claims, renewals or releases, the record stays and no token for the execution is handed out. |
| `LeaseEffects.OnlyTheHolderWrites` | workflow/execution_lease.go:330-359 | While a lease lasts a write is accepted exactly when it carries the holder's claim and is otherwise good. |
| `LeaseEffects.OtherTenantsLeaveIt` | workflow/execution_store.go:78-157 | No step of another tenant's caller touches an execution or its lease. |
| `ExecutionStore.StepsKeepUpdate` | workflow/execution_store.go:108-157 | An update keeps the invariants of store and history. |
| `ExecutionStore.StepsKeepReady` | workflow/execution_lease.go:136-200 | A ready-claim keeps the invariants of store and history. |
| `LeaseEffects.RunIsItsOperations` | workflow/execution_store.go:78-157 | The runs spoken of below do what the store's operations do, one after the other. |
| `ExecutionRuns.RunKeeps` | workflow/execution_lease.go:78-273 | Every state reached by any interleaving of creates, updates, claims, ready-claims, renewals and releases satisfies the invariants; every stored execution is a valid checkpoint. |
| `ExecutionRuns.NewTokensAreFresh` | workflow/execution_lease.go:78-200 | A token a step hands out is larger than every token issued before, and the lease it replaces had been released or had passed its until time. |
| `ExecutionRuns.TenuresNeverOverlap` | workflow/execution_lease.go:78-273 | Of two tenures of one execution the one with the larger token begins no earlier than the other ends. |
| `ExecutionRuns.WritesFormOneChain` | workflow/execution_store.go:108-157 | The accepted writes to one execution have revisions 1, 2, 3, ... with no gap, the last is what is stored, and between any two identity, input and deadline stay, attempts do not drop, settled steps keep their status and a terminal execution is frozen. |
| `LeaseEffects.StoredCheckpointsAreSound` | workflow/execution_store.go:221-279 | In every run a stored execution has identity, dates, a position among its steps, distinct known steps, an approval exactly while it waits and an end exactly when it is terminal. |
| `LeaseEffects.WhatNeverChanges` | workflow/execution_store.go:284-347 | Whatever steps follow, an execution keeps its identity, principal, version, input, dates and steps; position, revision and attempts never drop, settled steps keep their status and an ended execution never changes. |
| `ExecutionRuns.WritesAreFenced` | workflow/execution_lease.go:330-359 | Each write accepted while a lease record existed carried that record's owner and token before its until time, and later writes under a lease never carry a smaller token. |
| `HistoryTells.WriteIsRecorded` | workflow/execution_store.go:78-157 | The history that these claims speak of is true: a step that stores something new adds exactly that, with the claim it carried, the lease record that stood and the time; no other step adds any. |
| `HistoryTells.GrantIsRecorded` | workflow/execution_lease.go:110-200 | A new token's tenure begins when the step reads its clock, under the owner and up to the limit that the lease record names. |
| `HistoryTells.TenureIsRecorded` | workflow/execution_lease.go:78-273 | A step changes a tenure only while it is the latest: its limit moves with the record's, or it ends now when the record is deleted. |
| `ExecutionRuns.RunMovesOn` | workflow/execution_store.go:108-157 | Along a run a stored execution never disappears, its revision never drops and its history of accepted writes only grows at the end. |
| `ExecutionRuns.StaleWriterIsRefusedForever` | workflow/execution_store.go:139-143 | A writer that holds an older revision is refused at every later time. |
| `ExecutionRuns.SupersededWriteAcceptedIff` | workflow/execution_lease.go:330-359 | In every run, after a later tenure has begun, a write with the earlier token is accepted exactly when no lease record stands and the write is otherwise good, its revision included. |
| `ExecutionExamples.SupersededWriteAfterRelease` | workflow/execution_lease.go:330-338 | A run in which A claims, its lease lapses, B claims and releases, and A's write under the first token is accepted. |
| `ExecutionRuns.ExpiredRecordFreezesExecution` | workflow/execution_lease.go:330-359 | Along every run whose clocks do not go back, an execution with an expired record and the record itself stay as they are until the execution is claimed anew. |
| `LeaseHistory.GrantKeepsTime` | workflow/execution_lease.go:110-133 | Granting the next token keeps tenures disjoint when the previous lease has passed. |
| `LeaseHistory.AppendKeeps` | workflow/execution_store.go:150-156 | Recording an accepted write keeps the chain of revisions and its fencing. |
| `Checkpoint.ValidateCheckpoint` | workflow/execution_store.go:221-279 | Accepts exactly the valid checkpoints. |
| `Checkpoint.ValidateExecutionUpdate` | workflow/execution_store.go:284-347 | Accepts exactly the valid updates; an invalid one is a configuration error exactly when it would change what is fixed, and a conflict otherwise. |
| `Checkpoint.UpdateEvolves` | workflow/execution_store.go:284-414 | A valid update keeps identity, input and deadline, moves NextStep by at most one, never lowers attempts, never reopens a settled step and never changes a terminal execution. |
| `Checkpoint.EvolvesTransitive` | workflow/execution_store.go:284-414 | What one update keeps, any number of updates keeps. |
| `Recovery.Recover` | workflow/recovery.go:32-228 | Succeeds exactly when the caller is the initiator of the checkpoint passed in, the execution is acquired and version, waiting step, reason, evidence and tool meet the guards on the claimed checkpoint; then writes the checkpoint of the chosen decision; each refusal has its kind. |
| `Recovery.ResolvableIff` | workflow/recovery.go:62-218 | Spells out what the claimed checkpoint, the request and the tool must be for that. |
| `Recovery.RefusalTells` | workflow/recovery.go:63-119 | The kind of a refusal: conflict exactly for an execution or step that is not to be recovered, not found exactly for a good request whose tool is gone, otherwise invalid. |
| `Recovery.OnlyItsInitiator` | workflow/recovery.go:38-56 | Recovery and cancellation are for the tenant and actor the checkpoint names, in person and in the context; a run is resumed in such a context, under its own version. |
| `Recovery.InterruptedIff` | workflow/coordinator.go:332-335 | A run counts as interrupted inside a call exactly when its current step is a tool step that has begun and not ended. |
| `Recovery.RecoveryIsAccepted` | workflow/recovery.go:75-218 | The checkpoint written for each of the four decisions passes both checks of the store, and NextStep moves on exactly when the step is confirmed as completed. |
| `Recovery.ResolutionTells` | workflow/recovery.go:125-218 | A confirmed output reaches step and state and the run goes on behind it; a call that did not run is made again; compensated ends as failed, canceled as canceled, both with the step failed; nothing else changes. |
| `Recovery.ResolutionGivesReason` | workflow/recovery.go:184-202 | The error of a compensated or canceled execution says which it was and gives the trimmed reason. |
| `Recovery.Cancel` | workflow/cancellation.go:15-68 | Succeeds exactly for the initiator of the checkpoint passed in, with a reason, while that checkpoint is not terminal, the execution is acquired and a pending approval could be settled; then writes the canceled claimed checkpoint; each refusal has its kind. |
| `Recovery.CancelCheckpoint` | workflow/cancellation.go:101-139 | Ends the execution and the steps that can still be canceled, and nothing else. |
| `Recovery.CancellationTells` | workflow/cancellation.go:101-139 | Only the current step ends with the execution, and only if it was open. |
| `Recovery.CancelableIff` | workflow/cancellation.go:21-44 | Canceling is for the initiator, on a checkpoint that has not ended, with a trimmed reason of 1 to 4096 characters and no NUL. |
| `Recovery.ExpireExecution` | workflow/cancellation.go:75-99 | As a cancellation, with the timeout error. |
| `Recovery.CancellationAcceptedIffOpen` | workflow/cancellation.go:101-139 | From a valid stored checkpoint the store takes the canceled checkpoint exactly when the execution is not terminal. |
| `Recovery.ResumeInterrupted` | workflow/coordinator.go:302-377 | Checks identity and version on the checkpoint passed in; on the claimed one asks for recovery exactly when the current step was running a known tool with side effects, refuses exactly an unknown tool, panics exactly when the version has a step at a position where the checkpoint has none, and otherwise goes on. |
| `Recovery.PanicsIffVersionHasMoreSteps` | workflow/coordinator.go:332-334 | From a valid checkpoint that panic comes exactly when all its steps are done and the version has more. |
| `Recovery.InterruptionAcceptedIffRunning` | workflow/coordinator.go:332-373 | From a valid stored checkpoint the store takes the recovery_required checkpoint exactly when the execution is running or already waits for recovery. |
| `Recovery.InterruptionTells` | workflow/coordinator.go:347-357 | Execution and step wait for recovery with the same error; all else stays. |
| `Progress.MoveAcceptedIff` | workflow/runtime.go:594-670 | From a valid running checkpoint the store takes what the run loop writes, to begin, skip, complete or fail a step, to ask for an approval or a recovery, exactly when the step's status allows it. |
| `Progress.PlainRunIsStored` | workflow/runtime.go:594-690 | From any valid running checkpoint with pending steps the whole run to its conclusion is stored, write by write. |
| `Progress.ConclusionAcceptedIff` | workflow/runtime.go:677-690 | The conclusion is stored exactly when the execution is running or waits for recovery. |
| `Progress.ApprovalDecisionIsStored` | workflow/runtime.go:440-485 | A granted approval lets the run go on, and one that is not granted fails its step. |
| `Progress.NothingIsSkippedOver` | workflow/execution_store.go:364-414 | No accepted update completes a step that was not begun, skips one that was, or ends a run that waits for an approval as completed. |
| `ExecutionExamples.InterruptionRefusedAfterApproval` | workflow/coordinator.go:261-377 | An execution read as running is set to wait for an approval before the claim; the recovery checkpoint is refused. |
| `Recovery.AcceptedMeansStored` | workflow/execution_store.go:108-157 | What the checks accept, a current writer's update stores. |
| `Ordering.OldestIsFair` | workflow/execution_lease.go:166-180 | The first keys of the sorted listing are the least ones: none outside comes before one inside. |
| `Ordering.SortOldestFirst` | workflow/execution_lease.go:166-176 | Sorting any listing of distinct keys gives the one ascending listing of their set, so map order does not matter. |
| `Ordering.SortedUnique` | workflow/execution_lease.go:166-176 | A set of keys has one ascending listing. |
| `Outbox.MemoryOutbox.constructor` | audit/outbox.go:59-64 | A new outbox is empty. |
| `Outbox.MemoryOutbox.Enqueue` | audit/outbox.go:66-97 | Files a valid event of the caller's tenant once; the same event again changes nothing, another under its id is a conflict. |
| `OutboxEffects.EnqueueEffect` | audit/outbox.go:66-97 | A filed event becomes a pending item without attempts or lease, dated now; nothing else changes. |
| `Outbox.MemoryOutbox.Claim` | audit/worker.go:335-382 | Leases the oldest claimable items up to the limit to the worker, returns them in that order and touches nothing else, whatever the map order. |
| `Outbox.ClaimTakesTheOldest` | audit/worker.go:349-381 | A claim takes exactly the Limit least claimable items in (created, id) order and changes only their lease. |
| `OutboxEffects.ClaimEffect` | audit/worker.go:349-381 | A claim changes at most the lease of an item, to the worker until now + duration, and leases none that is settled, leased or waiting for its retry. |
| `OutboxEffects.ClaimedItemIsLeftAlone` | audit/worker.go:349-381 | In every run a claimed item stays as it is until its lease runs out, but for its own worker's reports; from then on it can be claimed again. |
| `OutboxEffects.RunIsItsOperations` | audit/worker.go:335-556 | What a run of workers does to the outbox is what the outbox's operations do, one after the other. |
| `OutboxEffects.ClaimBounds` | audit/worker.go:297-322 | A claim is granted exactly to an identified caller for one to a thousand items and from a second to a day. |
| `Outbox.MemoryOutbox.Pending` | audit/outbox.go:99-139 | Lists the oldest deliveries of the tenant that are neither delivered nor dead, in (created, id) order up to the limit, whatever the map order. |
| `OutboxEffects.PendingListing` | audit/outbox.go:110-139 | It lists all pending items up to the limit, a hundred when none is given, and skips none for a newer one. |
| `OutboxEffects.PendingIff` | audit/outbox.go:120-130 | Pending are exactly the tenant's items that are neither delivered nor dead. |
| `Outbox.MemoryOutbox.Acknowledge` | audit/worker.go:384-427 | Marks an item delivered exactly for the worker named on its lease. |
| `OutboxEffects.AcknowledgeEffect` | audit/worker.go:384-427 | Taken exactly from the caller's worker on the lease; sets the delivery time, gives up the lease and changes nothing else. |
| `Outbox.MemoryOutbox.Fail` | audit/worker.go:429-475 | Counts the attempt and releases or dead-letters the item exactly for the worker named on its lease. |
| `OutboxEffects.FailEffect` | audit/worker.go:429-475 | Taken exactly from the caller's worker on the lease with a retry not before the failure; counts the attempt, gives up the lease and puts the next attempt at the planned time, or ends the item. |
| `OutboxEffects.RetryWaitsForItsTime` | audit/worker.go:184-200 | In every run a failed live item can be claimed exactly from the doubled delay for its attempts after the clock it was planned by, and nothing changes it before. |
| `Outbox.MemoryOutbox.Requeue` | audit/worker.go:518-561 | Brings a dead item back with no attempts. |
| `OutboxEffects.RequeueEffect` | audit/worker.go:518-561 | Taken exactly for the caller's dead item, which is then live again without attempts or lease and due at the given time. |
| `OutboxEffects.OtherTenantsLeaveIt` | audit/worker.go:335-561 | No operation of another tenant's caller touches an item. |
| `Deliveries.RunKeeps` | audit/worker.go:162-216 | In every interleaving of worker runs, with leases running out at any time, a leased item is neither delivered nor dead, never both of these hold, attempts equal the accepted failures, and an item is dead exactly at the last attempt. |
| `Deliveries.OwnerNameActsAsFence` | audit/worker.go:162-216 | Acknowledge and Fail from a run succeed exactly while that run's claim is the latest and still open: the owner's name refuses every superseded claim. |
| `Deliveries.AttemptsCountAcceptedFailures` | audit/worker.go:429-475 | Stored attempts are the failures accepted since enqueue or requeue, below the maximum while the item is live, and at the maximum exactly when it is dead. |
| `Deliveries.EventsAreKept` | audit/worker.go:335-561 | Along every run no event is lost or altered and a delivered item stays delivered. |
| `Deliveries.TakePreserves` | audit/worker.go:335-561 | One step loses or alters no event and undoes no delivery. |
| `OverlappingRuns.EveryMoveKeeps` | audit/worker.go:162-216 | With any number of runs under one name, in every interleaving, a lease on an item names the worker of its latest claim and goes with that claim, and every entry still to be reported was claimed under its run's number. |
| `OverlappingRuns.MovesAreOperations` | audit/worker.go:335-556 | Here too every move is an operation of the outbox. |
| `OverlappingRuns.ReportIsTakenIff` | audit/worker.go:384-475 | In every such interleaving a report is taken exactly when the item's latest claim is open and was made under the reporting run's name, whichever run made it. |
| `OverlappingRuns.TwoRunsUnderOneNameBreakTheFence` | audit/worker.go:415-421 | A run with two claims of one event under one name: the superseded claim's failure is taken and the latest claim's delivery is refused. |
| `DeliveryWorker.Worker.RunOnce` | audit/worker.go:162-216 | A run claims the oldest items and settles them in order as the sink answered until its context ends, leaves all others alone, and reports matching counters, outcome and health. |
| `DeliveryWorker.Worker.DeliverOne` | audit/worker.go:179-214 | One delivery: the item, the counters and the outcome after its report. |
| `DeliveryWorker.HealthTellsLastPolls` | audit/worker.go:227-252 | After any polls the failure count is the number of troubled polls since the last clean one, the worker is ready exactly when its last poll that was not interrupted was clean, and the last success is that of the last clean poll. |
| `DeliveryWorker.DeadlinesStayUnseen` | audit/worker.go:238-246 | Polls whose sink always runs into its own deadline leave readiness and failure count as they were, although no context ends. |
| `DeliveryWorker.RunSettlesAll` | audit/worker.go:162-216 | With timely clocks every item tried loses its lease and is delivered or has one attempt more, dead exactly when that was the last and otherwise due at the doubled delay after the planning clock; delivered and failed add up to tried. |
| `DeliveryWorker.CountersCount` | audit/worker.go:176-214 | The counters say how many deliveries the sink and the outbox took, how many the sink refused and how many of these for the last time. |
| `DeliveryWorker.TimelyIsRecorded` | audit/worker.go:184-211 | The outbox takes a report exactly when it is recorded at a real time and, for a failure, not after the planned retry, for a delivery, before the context ends. |
| `DeliveryWorker.LateReportIsRefused` | audit/worker.go:184-200 | The report of a failure one tick after the planned retry is refused. |
| `Backoff.ComputeBackoff` | audit/worker.go:283-295 | Never computes a value above the ceiling and returns the specified delay. |
| `Backoff.DelayIsDoubledUnderCeiling` | audit/worker.go:283-295 | The delay is min(base * 2^(attempt-1), ceiling) except, exactly, where an odd ceiling is one above the doubled base; it then is the ceiling. |
| `Backoff.OddCeilingIsReached` | audit/worker.go:283-295 | Valid settings at that one spot. |
| `Backoff.DelayIsMonotone` | audit/worker.go:283-295 | A later attempt never waits less. |
| `TaskGraph.HasCycle` | sessions/memory.go:408-443 | The depth-first search answers yes exactly when the graph has a directed cycle. |
| `TaskGraph.Visit` | sessions/memory.go:417-437 | One descent: it finds a cycle, or adds the node and all below it to the finished ones in dependency order. |
| `TaskGraph.RankedMeansAcyclic` | sessions/memory.go:408-443 | A graph whose nodes are listed after all they lead to has no cycle. |
| `TaskEdges.RemoveInPlace` | sessions/memory.go:398-406 | Compacts the list in place: what is kept is the list without the id, in order. |
| `TaskEdges.LinkKeeps` | sessions/memory.go:331-374 | Adding one edge on both sides keeps the lists mirrored and adds exactly that edge. |
| `TaskEdges.UnlinkKeeps` | sessions/memory.go:331-374 | Removing one edge on both sides keeps the lists mirrored and removes exactly that edge. |
| `TaskEdges.DetachKeeps` | sessions/memory.go:314-329 | Detaching a task removes exactly its edges on both sides. |
| `TaskEdges.GraphOfBlocks` | sessions/memory.go:408-416 | The searched graph has exactly the Blocks edges. |
| `TaskStore.InMemoryStore.CreateTask` | sessions/memory.go:173-193 | Adds a task under a fresh id with no edges and keeps every session consistent. |
| `TaskEffects.CreateEffect` | sessions/memory.go:173-193 | The new task has the given texts, the next number, is pending and has no owner and no edges. |
| `TaskStore.InMemoryStore.UpdateTask` | sessions/memory.go:223-278 | Applies the patch as specified or, when it is refused, changes nothing; every session stays consistent. |
| `TaskStore.InMemoryStore.DeleteTask` | sessions/memory.go:280-295 | Removes the task and every edge to it, or reports that it was not there. |
| `TaskStore.InMemoryStore.Delete` | sessions/memory.go:159-171 | Forgets the session's tasks and no other session's. |
| `TaskStore.DetachTask` | sessions/memory.go:314-329 | Leaves no edge to or from the task and every other edge as it was. |
| `TaskStore.ApplyTaskEdges` | sessions/memory.go:331-374 | Accepts exactly the edge patches whose targets exist, are not the task itself and are not deleted and which close no cycle, and then has made the edge edits of the patch on both sides. |
| `TaskStore.HasTaskCycle` | sessions/memory.go:408-443 | Answers yes exactly when the Blocks graph with the updated task's edges in place of the stored ones has a directed cycle. |
| `TaskStore.UpdateKeeps` | sessions/memory.go:223-278 | An update keeps the lists mirror images, without self edge, repeat or dangling id, with no edge on a deleted task, and the Blocks relation acyclic. |
| `TaskEffects.UpdateEffect` | sessions/memory.go:223-278 | An accepted update sets exactly the fields the patch names, status and each metadata key included, and stamps the task; all other tasks keep every field outside their edge lists. |
| `TaskEffects.UpdateAcceptedIff` | sessions/memory.go:267-374 | An update is accepted exactly when it deletes the task, or its new edges lead to known, undeleted other tasks and no cycle closes. |
| `TaskStore.PatchEdgesKeeps` | sessions/memory.go:331-374 | The Blocks edges after a patch are the stored ones plus the added minus the removed, as seen from both sides. |
| `TaskStore.DeleteKeeps` | sessions/memory.go:280-295 | A deletion keeps the same invariant. |
| `TaskEffects.DeleteEffect` | sessions/memory.go:280-295 | A deletion takes out that task only and keeps the other tasks' fields. |
| `TaskStore.EveryRunIsConsistent` | sessions/memory.go:173-295 | Every run of creates, updates and deletes keeps a session's tasks consistent. |
| `TaskEffects.RunIsItsOperations` | sessions/memory.go:173-295 | What a run leaves is what its operations leave, one after the other, from the empty session on. |
| `TaskStore.UniqueIDs` | sessions/memory.go:376-387 | Computes the list of which `UniqueKeepsFirstMentions` speaks. |
| `TaskStore.UniqueKeepsFirstMentions` | sessions/memory.go:376-387 | Keeps exactly the ids given, each once, in the order in which they are first mentioned. |
| `Grep.ScanContent` | tools/grep.go:504-567 | The one-pass scanner puts out exactly the expected lines, match marks and separators for any flags and any -A and -B. |
| `GrepRanges.RenderContent` | tools/grep.go:628-700 | Merging line ranges puts out exactly the same list. |
| `GrepRanges.RenderBothWays` | tools/grep.go:504-700 | For any match flags and any -A and -B both renderers give the same lines, marks and separators. |
| `GrepRanges.MergeRanges` | tools/grep.go:648-674 | The merged ranges are in order with a line between any two and cover exactly the lines within some match's context. |
| `Grep.EmitMatch` | tools/grep.go:519-541 | At a match the separator, the held lines and the match come out as expected. |
| `Grep.LayoutMeaning` | tools/grep.go:504-567 | In the expected output each shown line stands once, in order, with its mark, and a separator stands exactly before each line that follows a gap. |
| `Redaction.OrderDoesNotMatter` | observation/data_policy.go:86-99 | Applying rules one by one in any order gives the tree that depends only on which rules there are. |
| `Redaction.RulesCommute` | observation/data_policy.go:101-136 | Any two rules commute, wildcards and overlapping prefixes included. |
| `Redaction.OneMoreRule` | observation/data_policy.go:101-136 | Applying one more rule is the same as having had it among the others. |
| `Redaction.RedactTwice` | observation/data_policy.go:86-99 | Two policies one after the other are one policy with the rules of both. |
| `Redaction.RuleIsEnforced` | observation/data_policy.go:101-136 | An address a rule names is gone or, for masking, holds nothing but the replacement. |
| `Redaction.UntouchedStays` | observation/data_policy.go:101-136 | What stands at an address no rule reaches stays there, changed only by rules that go further down. |
| `Sanitizer.JsonObject.ApplyRedaction` | observation/data_policy.go:101-136 | Editing the nested maps in place does to the tree what the rule says. |
| `Sanitizer.Clone` | observation/data_policy.go:90 | The clone is equal and shares no map with the payload. |
| `Sanitizer.SanitizeMap` | observation/data_policy.go:86-99 | Whatever order the rules come up in, the result is the redacted tree, on fresh maps. |
| `Sanitizer.SanitizeTwice` | observation/data_policy.go:86-99 | Sanitizing twice equals sanitizing once. |
| `Sanitizer.OneActionPerPath` | observation/data_policy.go:91-97 | Different configured paths never become the same rule with two actions. |
| `Sanitizer.NewRedactor` | observation/data_policy.go:36-59 | Accepts exactly the options whose trimmed paths and actions are all valid; the rules are those of some reading order. |
| `RedactionPolicy.LineReachesPayload` | observation/data_policy.go:36-136 | What an undisputed configured line names is not in the sanitized payload when it says drop, and reads as the replacement, unless taken away otherwise, when it says mask. |
| `RedactionPolicy.PathIsValidIff` | observation/data_policy.go:44-48 | Which dotted paths are accepted, by their keys. |
| `Sanitizer.RulesFixedIffUnambiguous` | observation/data_policy.go:44-57 | The rules do not depend on map order exactly when no two keys that trim alike ask for different actions. |
| `Sanitizer.TwoSpellings` | observation/data_policy.go:44-57 | Two valid spellings of one path with different actions. |
| `Sanitizer.SplitKeepsThePath` | observation/data_policy.go:92 | Splitting a path at its dots loses nothing. |
| `Sequences.LongestCommonSubsequence` | learning/analysis.go:537-554 | The two swapped rows compute the length of a longest common subsequence: one of that length exists and none is longer. |
| `Sequences.LcsIsLongest` | learning/analysis.go:537-554 | The recurrence gives the maximum length over all common subsequences. |
| `Sequences.SequenceConsistency` | learning/analysis.go:514-535 | The score is the mean similarity over all pairs. |
| `Sequences.ConsistencyRange` | learning/analysis.go:514-535 | The score lies between 0 and 1 and is 1 exactly when all sequences are the same. |
| `Sequences.SimilarityRange` | learning/analysis.go:521-530 | The similarity of two sequences lies between 0 and 1 and is 1 exactly when they are equal. |
| `SimilarityLaws.SimilarityIsShare` | learning/analysis.go:521-530 | The similarity is the share of the longer sequence that a longest common subsequence makes up. |
| `SimilarityLaws.OneMoreSequence` | learning/analysis.go:514-535 | The sum over all pairs grows with a sequence by its similarity to each of the others. |
| `SimilarityLaws.ConsistencyIsMean` | learning/analysis.go:514-535 | The score times the number of pairs is that sum; with no pair it is 1. |
| `Branches.DiscoverBranchCandidates` | learning/analysis.go:398-487 | Reports one candidate for each action with two or more outcomes and each recorded field whose equal values always lead to the same next action, and nothing else, whatever the map order. |
| `Branches.CandidateTells` | learning/analysis.go:446-460 | A candidate's two names make up the field, and its numbers count outcomes, values, observations and demonstrations. |
| `Branches.Discriminates` | learning/analysis.go:430-443 | The three tests over the value groups, in any order and with the early stop. |
| `Branches.TestsDecide` | learning/analysis.go:430-446 | Together the three tests decide whether the field determines the outcome. |
| `Branches.FurtherTestsHold` | learning/analysis.go:430-446 | Once equal values always lead to one outcome, the tests for enough values and for full coverage always hold. |
| `Branches.GroupOutcomes` | learning/analysis.go:418-429 | Groups the outcomes by the field's value, a missing field being one more value. |
| `Branches.SameValueIff` | learning/analysis.go:418-429 | Two observations share a value when both or neither have the field and agree, or when one lacks it and the other says `<missing>`. |
| `Branches.OutcomeKeysTellApart` | learning/analysis.go:489-506 | Outcome keys are equal exactly when what followed is the same, for names without NUL. |
| `Stream.AcceptedIffProtocol` | loop.go:408-697 | In production a stream yields a message exactly when it keeps to the protocol and the limits from beginning to end. |
| `Stream.GoingMeansOrderly` | loop.go:457-690 | The automaton has refused nothing exactly while the events so far are in order, and remembers of them what later checks need. |
| `Stream.OrderlyGrows` | loop.go:508-690 | One more event keeps the order exactly when it meets the checks for its kind. |
| `Stream.UsageTokenCount` | loop.go:256-276 | Gives the total exactly when no count is negative and the sum fits the machine integer. |
| `Stream.UsageAllowedIff` | loop.go:666-679 | Production takes a usage exactly when no count is negative and they add up to at most the limit. |
| `Stream.SizeCountsTexts` | loop.go:529-534 | What an event counts for against the response limit: 32 bytes and the length of its texts. |
| `Stream.StoppedForGood` | loop.go:457-690 | A refusal is final. |
| `StreamContent.TextIsKept` | loop.go:443-456 | The text and thinking blocks, read in order, give back every delta in order and kind, in production or not. |
| `StreamContent.ToolCallsAreKept` | loop.go:571-650 | An accepted production turn holds one tool block per call, in the order of the ends, with its opening name, and the decoded concatenation of its input or nothing when there was none; every call that was opened was closed; the ending is that of the last event. |
| `StreamBlocks.BlocksHaveTheirPlaces` | loop.go:443-697 | Every block of an assembled message, in production or not, has its place: a text or thinking block joins one whole stretch of its deltas, thinking with the last signature in it, a tool block stands at the end of its call with its input decoded, or kept raw when it does not decode; the blocks are in the order of their places. |
| `StreamContent.FinishedToolsReport` | loop.go:622-650 | Each finished call is reported once, from all its input. |
| `StreamContent.CommittedMeansContent` | loop.go:550-614 | The committed mark is set exactly when some answer content was let through. |
| `StreamContent.OutcomeTellsCommitted` | loop.go:372-406 | Every outcome, also a refusal, says whether content was let through before it, which decides on a retry. |
| `StreamContent.OutcomeTellsUsage` | loop.go:372-406 | Every outcome tells the usage of the last message end that was let through. |
| `StreamTurn.Turn.Run` | loop.go:408-697 | Reading the stream into buffers gives the specified outcome. |
| `StreamTurn.Turn.Take` | loop.go:487-690 | One result of the stream does to the fields what the automaton says; a refusal leaves usage and the committed mark. |
| `StreamTurn.Turn.Dispatch` | loop.go:535-690 | The handling by kind of event. |
| `Compaction.Compact` | compaction.go:337-361 | Cuts before the last user turns, or leaves the history when there is nothing to cut or no summary. |
| `Compaction.KeepLastTurnsStart` | compaction.go:400-415 | Finds the message that opens the last user turns. |
| `Compaction.LastTurnsStartIsUnique` | compaction.go:400-415 | There is only one such place. |
| `Compaction.StripReplay` | compaction.go:464-473 | Drops exactly the replay messages. |
| `Compaction.InjectReplay` | compaction.go:449-516 | Puts the replay after a leading summary, or first. |
| `Compaction.KeptTail` | session.go:335-397 | A compaction leaves the summary, the replay and exactly the last user turns, unchanged. |
| `CompactionContent.CompactedContent` | compaction.go:337-516 | A compacted history opens with the summary's text between its tags; behind it one message replays the skills that say something, in their order, and none when no skill does; the rest is from the history. |
| `CompactionContent.KeptTurnsAreSpoken` | compaction.go:400-447 | The kept end opens with one of as many user messages as turns are kept, ten by default: user messages of more than tool results that are neither summary nor replay. |
| `Compaction.ChangedWhenMoreTurns` | compaction.go:337-361 | A history changes exactly when there are more turns than are kept, beyond a summary already there, and summary and skills are to be had. |
| `Compaction.CompactionIsFixedPoint` | session.go:335-397 | Compacting the outcome again changes nothing, whatever the summary or the skills would be. |
| `Compaction.CompactionKeepsResultPairs` | compaction.go:400-431 | If every message of nothing but results follows its calls, that is so after a compaction too. |
| `Compaction.CompactionKeepsPairs` | compaction.go:400-431 | If every result at all follows its call, that is so after a compaction exactly when the first kept message carries no result. |
| `Compaction.StripKeepsResultPairs` | compaction.go:464-473 | Dropping replays parts no message of nothing but results from its calls. |
| `Compaction.StripKeepsPairs` | compaction.go:464-473 | Dropping replays parts no result at all from its call. |
| `Compaction.MixedMessageLosesItsCall` | compaction.go:417-431 | A history in which a result is parted from its call. |
| `SessionHistory.Session.Append` | session.go:288-314 | Both histories grow by the messages exactly when budget and store allow; the character count stays the sum. |
| `SessionHistory.Session.CompactProviderHistory` | session.go:316-411 | The provider view becomes the outcome of the pipeline exactly when compaction is due and changes something; the complete history never changes, and the view stays a summary and an unbroken end of it. |
| `CompactionContent.FullerIsCompactedToo` | session.go:424-434 | A fuller history is compacted whenever a smaller one is; without a window none is. |
| `CompactionContent.ReplaysDoNotCount` | session.go:329-342 | Replays never bring a compaction about: it is due exactly when the history is too full without them. |
| `CompactionContent.WindowDecides` | session.go:424-434 | A share that is not positive counts as four fifths; a full window is compacted exactly when the share is at most the whole. |
| `SessionHistory.CompactionKeepsView` | session.go:335-397 | After a compaction the view, replay aside, is one summary and an unbroken end of the complete history. |
| `SessionHistory.AppendKeepsPairs` | session.go:288-314 | Appending to both histories keeps the result messages of the provider view with their calls whenever those of the complete history are. |
| `SessionHistory.CompactionKeepsPairsOfView` | session.go:335-397 | So does compacting the view, any number of times. |
| `Scanners.SplitArguments` | skills/args.go:10-62 | Gives the tokens of the shared quoting discipline, and fails exactly when the text ends inside a quote. |
| `Scanners.TokenizeShellPrefix` | permissions/engine.go:507-556 | Gives the tokens of the same discipline for every text. |
| `Scanners.ScanBothWays` | permissions/engine.go:507-556 | Where the argument splitter succeeds the tokenizer finds the same tokens. |
| `Scanners.QuotingRoundTrip` | skills/args.go:10-62 | Quoting any tokens and splitting the line gives the tokens back. |
| `Spellings.SpellingRoundTrip` | skills/args.go:10-62 | However its words are written, bare, in either quotes, behind backslashes or mixed, and whatever blanks stand between them, a line gives back its words. |
| `Spellings.OpenQuoteStaysOpen` | skills/args.go:10-62 | Behind any good words an unclosed quote of either kind stays open to the end. |
| `Spellings.LastBackslashStays` | skills/args.go:53-58 | A backslash at the very end stands for itself. |
| `CompositeCommands.SplitCompositeCommand` | permissions/engine.go:574-615 | The segments are the stretches between the operators that are not blank, in order. |
| `CompositeCommands.PartsCutUp` | permissions/engine.go:574-606 | The parts found left to right are such a cutting: each ends at an operator the scan meets unquoted and holds none inside. |
| `CompositeCommands.CutAtOperators` | permissions/engine.go:574-606 | Cuts exactly at the operators met left to right with no open quote and no pending escape. |
| `CompositeCommands.PartsEndAtOperators` | permissions/engine.go:574-630 | Every part but the last ends at two ampersands or two bars, or else at a semicolon or a bar, that stand outside quotes and escapes, and none holds one; nothing else cuts. |
| `CompositeCommands.CutUpIsUnique` | permissions/engine.go:574-630 | There is only one such way to cut. |
| `CompositeCommands.PartsRebuild` | permissions/engine.go:574-606 | Stretches and operators put together give the command back. |
| `CompositeCommands.QuotedCommandIsOnePart` | permissions/engine.go:574-630 | A command line of quoted tokens is never cut, whatever characters the tokens hold. |
| `BashRules.EvaluateRules` | permissions/engine.go:99-121 | The first rule that decides, with bash rules tried on the list that begins at each of them. |
| `RuleLaws.RulingIsTheFirst` | permissions/engine.go:99-121 | The ruling is that of the first position in the list that has anything to say, and there is none when no position has. |
| `RuleLaws.FirstMatchIff` | permissions/engine.go:458-465 | A segment is decided by the first deciding bash rule from a position on that matches it. |
| `BashRules.EvaluateBashRules` | permissions/engine.go:434-456 | A denied segment denies; all allowed allow; otherwise nothing is decided. |
| `BashRules.MatchBashRule` | permissions/engine.go:467-481 | A plain pattern matches when its tokens open the segment's tokens. |
| `RuleLaws.PlainPatternMatchesWords` | permissions/engine.go:467-506 | A plain pattern without wildcards, however spelled, matches exactly the commands whose words begin with its words, and with no words none. |
| `RuleLaws.BlanksAroundDoNotMatter` | permissions/engine.go:467-481 | Every pattern sees a segment without the blanks around it. |
| `RuleLaws.MatchersAreAsked` | permissions/engine.go:467-481 | Regular expressions, and patterns with a wildcard character, are put to their matchers. |
| `BashRules.AllowNeedsTheCompleteList` | permissions/engine.go:99-121 | Whichever bash rule allows, every segment's first match in the complete bash rule list is allow. |
| `BashRules.BashVerdict` | permissions/engine.go:99-121 | With only bash rules in play: allowed exactly when every first match is allow, otherwise denied exactly when any deny rule matches any segment. |
| `BashExamples.ShadowedDenyTakesEffect` | permissions/engine.go:99-121 | Rules that allow a command and deny it beside a segment that no rule matches. |
| `BashExamples.PlainsAreTwoSegments` | permissions/engine.go:574-630 | Two plain commands with any of the four operators between them are two segments. |
| `BashExamples.AmpersandIsNoOperator` | permissions/engine.go:617-630 | With a single ampersand between them they are one. |
| `BashExamples.AllowStopsAtOperators` | permissions/engine.go:99-121 | In front of a command that no rule matches, behind any of the operators, an allowed command is not allowed. |
| `BashRules.UndecidedMeansUnmatched` | permissions/engine.go:434-465 | An undecided list leaves some segment without any match. |

## Left out

- Goroutines, mutexes, channels, tickers and, outside the delivery worker, context cancellation: each locked method is one atomic step; a cancelled context or a closed event stream ends an operation before or between steps.
- `Executor.run` and `Resume`: only the checkpoints they write for the current step are modelled (`Progress`), not the tool calls, conditions and audit events between them; recovery and interruption end where they hand over to `run`. `checkpointWithEvents` and the SQLite stores are not part of this model.
- Clones: executions, tasks, events and messages are values, so aliasing between a caller and a store is not modelled (the redactor's payload is the exception: there the nested maps are objects and the clone is proved to share nothing).
- Integer width: the fencing counter, revisions and time stamps are unbounded; only token counts are bounded, because the program checks them for overflow.
- Strings: lengths are counted in characters, and only ASCII white space is trimmed.
- Error texts: a refusal is one of the error kinds, or just a refusal; which of several errors a reader sees first is kept only where the kind differs.
- JSON, SHA-256, regular expressions, wildcards and match flags of lines: parameters, or encodings compared for equality.
- `Get`, `List`, `DeadLetters` and health reports of the coordinator: they only read.
- `MarkAttempt`, `MarkDelivered` and `Dispatcher`: the direct delivery path, which leaves leases in place and is not mixed with workers.
- Deliveries.Take: a worker's remaining batch is dropped when its run ends; a run that ends early because its context is cancelled is such a drop.
- DeliveryWorker.Worker.RunOnce: nobody else touches the outbox during the run; the interleaved case is `Deliveries` and `OverlappingRuns`. When the context ends is an argument of the run.
- Recovery.Recover, Recovery.Cancel, Recovery.ResumeInterrupted: the claim, the tool registry and the approval store are arguments with their answers or errors, except that an error of the registry while it describes a tool is left out.
- ExecutionRuns.TenuresNeverOverlap: the clocks of successive steps do not go back. `ClaimExecution` reads its clock before it takes the lock, so two claims may in fact see times out of order.
- Checkpoint.ValidateCheckpoint: step inputs, start times of steps and the approvals map are not part of the record.
- Grep.ScanContent, GrepRanges.RenderContent: one file as a list of match flags; output limits, carriage returns, file names and the line texts themselves are left out.
- Branches.DiscoverBranchCandidates: the evidence list and the final sorting of the candidates are left out; the candidates are found as a list without repeats.
- Sequences.SequenceConsistency: the score is an exact fraction, not a floating-point number.
- SessionHistory.Session.CompactProviderHistory: the production guard around the summarising provider and the usage it counts are left out; the summary, or its failure, is an argument.
- Compaction.InjectReplay: how skills are listed inside the replay message is a parameter.
- Recovery.ExpireExecution: as for `Cancel`, the approval store's answer is an argument.
- BashRules.EvaluateRules: whether a tool or path rule applies, and how regular expressions and wildcards match, are parameters; the default of the permission mode and the approval callback come after it and are left out.
- StreamTurn.Turn.Run: partial events sent to listeners while the stream is read, and a listener that goes away, are left out.
- Policies of approval requests, telemetry, registries, prompts, configuration, providers, tools other than grep, the browser, MCP and the terminal interface: input and output, or nothing beyond easy members.
