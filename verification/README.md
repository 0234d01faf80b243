# A verified model of bitagent's decision cores

This project models, in Dafny, the parts of bitagent that decide something that cannot be
taken back: whether a paid model request may be sent, what happens to a task whose worker
died, whether a removed torrent comes back exactly as it was, whether a torrent is called
unavailable. `dafny verify dfyconfig.toml` checks the whole project.

## What is modelled

**Dispatch fence and work queue** (`internal/llmcapture`, `internal/llmwork`). `Ledger` holds
the tables of both packages as one value. `DispatchSpec` and `WorkSpec` give one function per
SQL transaction. `LedgerRuns` interleaves them freely with the clock, capture retention,
response persistence, privacy changes and the separate statements of lease recovery, and keeps
a record of what was dispatched, charged and applied. `FenceSafety`, `BudgetSafety`,
`QueueSafety` and `RecoverySafety` prove what holds in every reachable state; `RecoveryGap` is a
concrete run that shows where one claim stops holding and `RecoveryWindow` the conditions that
rule it out; `DispatchProgress` proves what the protocol does allow. `PrepareLaws`,
`ReserveLaws`, `DispatchLaws`, `QueueLaws` and `RecoveryOutcome` say, answer by answer and in terms
of the rows alone, exactly when each transaction gives it and what it then writes, and carry the
exclusivity of live leases over whole runs. `DispatchController` and `WorkStore` are the
imperative methods over the mutable `Database`, each proved to do exactly what its transaction
function says.

**Catalogue recovery and blocking** (`internal/cataloguerecovery`, `internal/blocking`).
`RecoverySpec` is removal, restoration and the exact filter on a catalogue of ten tables;
`CatalogueSafety`, `CatalogueRuns` and `RestoreProgress` prove exact restoration, the budget and
blocking over runs; `RemovalLaws` and `RestoreLaws` prove exactly when a torrent is removed,
restored and passed; `RecoveryStore` and `Blocking` are the imperative stores.

**Availability** (`internal/cataloguepolicy`). `Availability` and `ObservationMerge` are the
source's loops with their specification; `AvailabilityLaws` proves optimality of the thinning,
the meaning of a suspicion and stability of decisions; `AvailabilityMeaning` characterises every
state by conditions on the observations that were passed in.

**Keyword parser** (`internal/lexer`, `internal/keywords`). `Lexers` is the one-step-unread
reader, `Keywords` the recursive-descent parser over it, `KeywordSpec` what it computes,
`KeywordLanguage` the texts it accepts, `KeywordLaws` the round trip and the refusals.

**Request keys** (`internal/llmcapture`): `CaptureKeys`, `CaptureKeyLaws`, `CaptureKeyWitness`.
**Title votes** (`internal/classifier`): `TitleEvidence`. **Canonical labels**
(`internal/evidence`): `EvidenceStore`. `Sorting`, `FiniteSets` and `Options` are shared helpers.

## Results worth reading first

- `FenceSafety.AtMostOneDispatchPerRequest`, `BudgetSafety.DispatchesWithinLimits` and
  `RecoverySafety.DeferredOnlyWhenSettled` hold in every reachable state of every interleaving.
- The last of them is false across lifetimes of a task row: `Cleanup` deletes a terminal row, a
  new row of the same key starts again at generation zero, and a recovery that still holds the
  old generation can then defer a task whose request was sent. `RecoveryGap.DeferredAcrossLifetimes`
  is that run. Two conditions that can be read from the tables shut the whole family out: the
  row's `lease_until` is no later than the selection, which holds exactly in the selected lifetime
  (`RecoveryWindow.LeaseShowsLifetime`), or less than a lease duration has passed since
  (`RecoveryWindow.DeferredWithinLeaseDuration`). The run sits exactly on that bound.
- `RecoveryOutcome.DeferredRowWasSettled` says the same of the rows alone: whenever the update turns a
  leased row of the selected lifetime into a deferred one, every attempt is undispatched or bound.
- `PrepareLaws.LiveLeaseStays`, `PrepareLaws.NotGrantedBeforeDue` and `QueueLaws.LiveLeaseIsExclusive`
  hold over every run: a live lease excludes everybody else.
- `ReserveLaws.ReservedExactly`, `RemovalLaws.RemovedExactly`, `RestoreLaws.RestoredExactlyWhen`,
  `AvailabilityMeaning.FreshPositiveExactly` and `KeywordLanguage.LanguageExactly` are if-and-only-ifs.
- `CatalogueRuns.RepeatedRemoval`: repeating a committed removal is idempotent exactly within
  the retention window and for the two restorable mechanisms, and is refused otherwise.
- `AvailabilityLaws.GreedyIsOptimal` holds for the number of observations kept; for their span it
  holds up to less than one gap. Evidence that spans the required time and a gap less one is
  always enough (`WideEvidenceSuffices`), and one less is not (`GreedySpanCanFallShort`).
- `AvailabilityLaws.ReturnedSuspicionJustified` and `ReturnedDecisionStable` say of whatever
  `EvaluateAvailability` returns, in terms of the observations it was given, that a suspicion is
  justified and that a decision holds until it expires, except that the protection of a recent
  positive can run out earlier; it changes exactly then.

## How the model relates to the code

- A transaction is atomic and reads the clock once; a rolled back transaction changes nothing.
- Rows that a query takes with `FOR UPDATE SKIP LOCKED LIMIT n` are an argument, so the theorems
  hold whichever rows it takes; an impossible choice changes nothing.
- In the dispatch model digests are free constructors: a capture key is the request's identity
  with its build, the semantic key the identity alone. In `CaptureKeys` SHA-256 is any function to
  32 bytes; where equal keys must mean equal requests, the hypothesis is that the finitely many
  texts hashed for the two requests do not collide.
- Columns that are only written together are one optional field; digest columns are typed, so
  their length checks are implied. The `born` number of a task row has no column: it lets a
  statement name one lifetime of a task key. The byte orders of task keys and capture keys are
  any ranking of them.
- The calendar is any function from days to months. Evidence identifiers and snapshot
  identifiers are positions, without the gaps of a database sequence.
- Times in `Availability` count from Go's zero time, which stands for "never". A positive
  observed before the zero time never protects a torrent, in the code as in the model; that is
  the condition `observedAt > 0` in the statements.

## Model

| member | source | states |
|---|---|---|
| `FenceSafety.AtMostOneDispatchPerRequest` | internal/llmcapture/dispatch_store.go:372-413 | from empty tables, over every interleaving of all operations of both packages and the environment, no two successful dispatches are of the same semantic key, whatever build captured them |
| `FenceSafety.NoDispatchAfterClosing` | internal/llmcapture/dispatch_store.go:234-248 | once a fence is held as unproven, past its intent, unknown or answered, no later run dispatches that request again |
| `FenceSafety.DispatchFrozenForever` | internal/llmcapture/dispatch_store.go:372-413 | a dispatched fence keeps owner, generation and active capture in every later state |
| `FenceSafety.ReplayServesFirstBound` | internal/llmcapture/dispatch_store.go:467-525 | after any further run, a replay serves a body only if its digest and observed time are those bound first, even if the capture expired and was captured again |
| `FenceSafety.RunKeepsFences` | internal/llmcapture/dispatch_store.go:111-272 | over any run, one row per semantic key, aliases lead to their own request's row, bound responses and task links are write-once, generations never decrease |
| `FenceSafety.ResolveKeyed` | internal/llmcapture/dispatch_identity_store.go:44-81 | a fence is always resolved, only to one of the same request, and to the existing one whenever there is one |
| `FenceSafety.PrepareKeepsFences` | internal/llmcapture/dispatch_store.go:111-272 | Prepare keeps the row, index and alias invariants and everything a fence must never lose |
| `FenceSafety.ReserveKeepsFences` | internal/llmcapture/dispatch_store.go:288-363 | Reserve keeps them |
| `FenceSafety.BeginKeepsFences` | internal/llmcapture/dispatch_store.go:372-413 | BeginDispatch keeps them |
| `FenceSafety.DeferKeepsFences` | internal/llmcapture/dispatch_store.go:415-433 | DeferNoDispatch keeps them |
| `FenceSafety.ObserveKeepsFences` | internal/llmcapture/dispatch_store.go:437-465 | ObserveResult keeps them |
| `FenceSafety.ReconcileKeepsFences` | internal/llmcapture/dispatch_store.go:535-547 | TaskRecovery's rebinding keeps them for every row it touches |
| `FenceSafety.BeginFreezes` | internal/llmcapture/dispatch_store.go:372-413 | a dispatch that succeeds found its fence open and leaves it recorded and closed |
| `PrepareLaws.AdmittedExactly` | internal/llmcapture/dispatch_store.go:40-88 | exactly which requests Prepare looks at: task and source, case fence, lease duration, a retained public capture, and a request that tells the truth about it |
| `PrepareLaws.UnadmittedRefused` | internal/llmcapture/dispatch_store.go:111-170 | whatever is not admitted, or not held by its case, is refused for that and changes nothing |
| `PrepareLaws.AdmissionRefusals` | internal/llmcapture/dispatch_store.go:40-88 | why a request is not admitted |
| `PrepareLaws.CaseFenceExactly` | internal/llmcapture/dispatch_store.go:90-109 | exactly when the case fence lets a request through: its work task is leased to that owner and generation right now, for that source and policy |
| `PrepareLaws.GrantedExactly` | internal/llmcapture/dispatch_store.go:198-272 | an existing fence is granted exactly if nothing was sent for it, no usable response is there, no lease is running and its retry time has come |
| `PrepareLaws.GrantedLease` | internal/llmcapture/dispatch_store.go:255-272 | the granted lease is the next generation, for the asked or the default duration, and the fence shows it |
| `PrepareLaws.ReplayedExactly` | internal/llmcapture/dispatch_store.go:198-229 | a replay is announced exactly for a usable response that carries its own digest and is the one bound first, which is then bound |
| `PrepareLaws.MismatchRefused` | internal/llmcapture/dispatch_store.go:204-218 | any other usable response is refused and changes nothing |
| `PrepareLaws.OtherAnswers` | internal/llmcapture/dispatch_store.go:230-254 | exactly when the answer is busy, not due, or uncertain, and that an uncertain fence is closed |
| `PrepareLaws.ForeignRefused` | internal/llmcapture/dispatch_store.go:163-170 | a request for another work task than the fence's is refused |
| `PrepareLaws.NewFenceExactly` | internal/llmcapture/dispatch_store.go:177-272 | a request without fence or older capture is granted exactly if its caller has just captured it and no response is there; otherwise its fence is closed at once |
| `PrepareLaws.PrepareSparesTaken` | internal/llmcapture/dispatch_store.go:234-254 | whatever anybody prepares, a fence that is leased or told to wait is not granted and keeps owner, generation, capture, lease and retry time |
| `PrepareLaws.StepLeavesAlone` | internal/llmcapture/dispatch_store.go:111-465 | no step of either package or the environment takes a fence from its live holder |
| `PrepareLaws.LiveLeaseStays` | internal/llmcapture/dispatch_store.go:252-254 | over any run, until its lease ends a fence keeps its holder and lease unless the holder gives it up |
| `PrepareLaws.NotGrantedBeforeDue` | internal/llmcapture/dispatch_store.go:249-251 | over any run, until its retry time a fence that was told to wait is granted to nobody |
| `ReserveLaws.MayReserveExactly` | internal/llmcapture/dispatch_store.go:288-324 | exactly who may reserve: the holder of an undispatched fence of a public capture, for its task's scope, under its own work lease |
| `ReserveLaws.ReservedExactly` | internal/llmcapture/dispatch_store.go:276-362 | for such a caller with positive limits a reservation is made exactly if the fence holds one of this scope and day, or the reservations of the day and of the month are both below their limits; it is charged exactly if new |
| `ReserveLaws.ReservedState` | internal/llmcapture/dispatch_store.go:325-362 | what a reservation changes, and that a charge counts one more in its month |
| `ReserveLaws.ExhaustedState` | internal/llmcapture/dispatch_store.go:328-351 | an exhausted budget charges nothing, names the limit that is used up, and sets the fence aside until the next day or month, later than now |
| `DispatchLaws.BegunExactly` | internal/llmcapture/dispatch_store.go:372-413 | exactly when a request may be sent: live holder, reservation of this very day, public capture, work task leased to the same case |
| `DispatchLaws.BegunState` | internal/llmcapture/dispatch_store.go:398-405 | sending changes the fence's state, records when, and nothing else |
| `DispatchLaws.DeferredExactly` | internal/llmcapture/dispatch_store.go:415-433 | exactly who may defer, and that the fence is then set aside until the given time |
| `DispatchLaws.ObservedExactly` | internal/llmcapture/dispatch_store.go:437-465 | exactly when a result is bound: a dispatched fence of the caller, the persisted response of its public capture, nothing else bound before |
| `DispatchLaws.ObservedState` | internal/llmcapture/dispatch_store.go:445-465 | what is bound, as a result or as unknown |
| `DispatchLaws.ReplayExactly` | internal/llmcapture/dispatch_store.go:467-525 | exactly when a replay is served, and that it is the bound response |
| `DispatchLaws.ReconciledExactly` | internal/llmcapture/dispatch_store.go:535-547 | recovery binds exactly the persisted responses of sent fences of the task that nothing contradicts, and touches nothing else |
| `DispatchLaws.RecoverableExactly` | internal/llmcapture/dispatch_store.go:548-573 | what recovery may conclude from one attempt |
| `DispatchLaws.PersistedExactly` | internal/llmcapture/results_store.go:27-54 | a response is persisted exactly for a public capture that has none |
| `DispatchLaws.FirstResponseStays` | internal/llmcapture/results_store.go:27-54 | over any run the first response of a capture stays until the capture is dropped |
| `DispatchProgress.OldestExists` | internal/llmcapture/dispatch_identity_store.go:64-81 | if another build captured the request, an oldest such capture exists |
| `DispatchProgress.OlderCaptureHolds` | internal/llmcapture/dispatch_identity_store.go:44-81 | a request without a fence that another build captured is held at once, under the oldest capture |
| `ReserveLaws.RoomIsUsed` | internal/llmcapture/dispatch_store.go:111-413 | in every reachable state, a request nobody captured before is granted, reserved and dispatched if the number of reservations made this day and this month is below its limits |
| `DispatchProgress.CrashedDispatchIsReplayed` | internal/llmcapture/dispatch_store.go:467-556 | a response persisted before a crash is bound by recovery and a replay then serves exactly that body |
| `BudgetSafety.MonthlyCallsAreReservations` | internal/llmcapture/dispatch_store.go:276-286 | in every reachable state monthly_calls is exactly the number of distinct (fence, UTC day) reservations of that month |
| `BudgetSafety.DispatchesWithinLimits` | internal/llmcapture/dispatch_store.go:288-413 | if no caller passes more than fixed limits, no UTC day and no month sees more dispatches of a scope than its limit |
| `BudgetSafety.ChargeIsNew` | internal/llmcapture/dispatch_store.go:325-362 | a charged reservation is always of a (fence, day) never charged before, so retries are free |
| `BudgetSafety.ChargeKeepsBudgets` | internal/llmcapture/dispatch_store.go:276-286 | one charge moves exactly one month's and one day's counter, with the day rolling over |
| `RecoverySafety.DeferredOnlyWhenSettled` | internal/llmwork/recovery.go:39-69 | within one row lifetime, recovery's update defers a task only if at that moment every linked attempt is undispatched or bound, whatever ran since the check |
| `RecoverySafety.NothingLinkedWithoutLease` | internal/llmcapture/dispatch_store.go:90-109 | while nobody holds a live lease, no controller step links a fence to the task or dispatches one that is linked |
| `RecoverySafety.FenceNextSettles` | internal/llmcapture/dispatch_store.go:111-465 | while nobody holds a live lease, no controller step unsettles an attempt of the task |
| `RecoverySafety.SelectionSurvives` | internal/llmwork/recovery.go:14-38 | no queue step brings the selected lease back to life under its generation |
| `RecoverySafety.SafeJudgementSettled` | internal/llmcapture/dispatch_store.go:548-573 | a verdict of safe means every attempt of the task is settled |
| `RecoveryOutcome.UpdatedRow` | internal/llmwork/recovery.go:57-69 | the update changes a row exactly if its lease has run out under that generation; then it is deferred on a verdict of safe and held on any other, with the reason of each |
| `RecoveryOutcome.DeferredRowWasSettled` | internal/llmwork/recovery.go:39-69 | in every reachable state, if the update turns the leased row of the selected lifetime into a deferred one, every attempt of the task is undispatched or bound |
| `RecoveryOutcome.DeferredRowWithinWindow` | internal/llmwork/recovery.go:39-69 | the same by what the tables show: the lease is the selected one, or less than a lease duration has passed |
| `RecoveryOutcome.ReleasedIsDeferredOrHeld` | internal/llmwork/recovery.go:63-66 | a leased row that the update releases without deferring is held; no other state is ever written |
| `RecoveryOutcome.RecoveredExactly` | internal/llmwork/recovery.go:14-71 | an expired lease is deferred exactly if there is a controller and, after binding what can be bound, every attempt is unsent or its response is kept; otherwise it is held |
| `RecoveryOutcome.StatementsAreItem` | internal/llmwork/recovery.go:39-69 | the separate statements of a recovery with nothing in between are the recovery of that item |
| `RecoveryOutcome.GivesUpExactly` | internal/llmwork/recovery.go:42-46 | recovery gives up exactly on more than 256 attempts |
| `RecoveryGap.DeferredAcrossLifetimes` | internal/llmwork/recovery.go:39-143 | a concrete run that defers the task of a sent request, exactly a lease duration after the selection |
| `RecoveryWindow.LeaseShowsLifetime` | internal/llmwork/recovery.go:15-17 | in every reachable state the row to be deferred is in the selected lifetime exactly when its lease_until is no later than the selection |
| `RecoveryWindow.DeferredOnlyWhenLeaseUnchanged` | internal/llmwork/recovery.go:63-66 | on that condition the update defers only a task whose every linked attempt is undispatched or bound |
| `RecoveryWindow.DeferredWithinLeaseDuration` | internal/llmwork/recovery.go:39-69 | so it does whenever less than a lease duration has passed since the selection, whatever ran in between |
| `RecoveryWindow.StepLeases` | internal/llmwork/store.go:186-238 | every lease was taken or extended in that step for a lease duration, or was there before |
| `QueueSafety.TerminalForever` | internal/llmwork/store.go:197-222 | a terminal row keeps its state for the rest of its lifetime |
| `QueueSafety.RunNeverRevives` | internal/llmwork/recovery.go:88-145 | a lifetime that has ended never comes back |
| `QueueSafety.AtMostOneApplication` | internal/llmwork/store.go:258-296 | over any run a task key gets at most one application, its row stays and its task is completed from then on |
| `QueueSafety.StepApplied` | internal/llmwork/store.go:258-296 | the application row and the completed state commit together, and no other step commits one |
| `QueueSafety.QueueStaysWithinCapacity` | internal/llmwork/store.go:83-127 | in every reachable state unexpired pending tasks of a kind fit MaxPending, fit their time bucket, and no two share a family |
| `QueueSafety.StepMoves` | internal/llmwork/store.go:142-254 | every step moves every task row only along the lifecycle, never out of a terminal state or back to an older generation |
| `QueueLaws.EnqueuedExactly` | internal/llmwork/store.go:50-127 | exactly when a new task is accepted |
| `QueueLaws.EnqueuedState` | internal/llmwork/store.go:83-127 | the row of a new task, what a known key is answered, and that nothing changes otherwise |
| `QueueLaws.QueueBounds` | internal/llmwork/store.go:83-127 | the capacity of every reachable state in plain counts of unfinished tasks |
| `QueueLaws.ClaimableExactly` | internal/llmwork/store.go:170-176 | exactly which tasks may be claimed: waiting, due, unexpired, public, and paced over the day unless urgent |
| `QueueLaws.ClaimedExactly` | internal/llmwork/store.go:142-195 | exactly when a claim succeeds; it ages every overdue task it takes, also when it leases none |
| `QueueLaws.ClaimedState` | internal/llmwork/store.go:170-195 | a claimed task was such a one; it is leased to the owner as the next generation for a lease duration |
| `QueueLaws.AgedState` | internal/llmwork/store.go:163-169 | a claim ages only waiting tasks past their age, and touches no other task |
| `QueueLaws.FirstMeans` | internal/llmwork/store.go:177-179 | the first task is of the greatest urgency, then of a slice of the day that has waited longest, then oldest, then of the smallest key |
| `QueueLaws.AnsweredExactly` | internal/llmwork/store.go:197-296 | Heartbeat, MarkProgress, Finish and Apply answer exactly the holder of a live lease, Finish and Apply under their further conditions |
| `QueueLaws.WrittenState` | internal/llmwork/store.go:197-296 | what each of them writes |
| `QueueLaws.LiveLeaseIsExclusive` | internal/llmwork/store.go:197-254 | over any run, until a lease ends the task row stays as it is unless its holder acts |
| `QueueLaws.CleanedState` | internal/llmwork/recovery.go:88-145 | Cleanup deletes only tasks past their age that have ended or are abandoned and never an applied one; abandoned ones end held or expired |
| `QueueLaws.CleansExactly` | internal/llmwork/recovery.go:88-145 | exactly which sets of rows one Cleanup takes |
| `DispatchController.Controller.ResolveSemanticFence` | internal/llmcapture/dispatch_identity_store.go:44-81 | computes the resolution of the specification |
| `DispatchController.Controller.LinkDispatchAlias` | internal/llmcapture/dispatch_identity_store.go:83-94 | links a capture unless it already belongs to another fence |
| `DispatchController.Controller.DecideAttempt` | internal/llmcapture/dispatch_store.go:198-272 | the row updates and answer of Prepare's decision, which the PrepareLaws rows pin answer by answer |
| `DispatchController.Controller.Prepare` | internal/llmcapture/dispatch_store.go:111-272 | tables and answer are those of the Prepare transaction; the table invariants hold again |
| `DispatchController.Controller.Reserve` | internal/llmcapture/dispatch_store.go:288-363 | likewise for Reserve, with its refusals, reuse of a reservation and exhaustion |
| `DispatchController.Controller.ReserveBudget` | internal/llmcapture/dispatch_store.go:274-286 | the conditional budget upsert, which charges exactly if day and month have room (ReserveLaws.ReservedExactly) |
| `DispatchController.Controller.BeginDispatch` | internal/llmcapture/dispatch_store.go:372-413 | likewise for BeginDispatch |
| `DispatchController.Controller.DeferNoDispatch` | internal/llmcapture/dispatch_store.go:415-433 | likewise for DeferNoDispatch |
| `DispatchController.Controller.ObserveResult` | internal/llmcapture/dispatch_store.go:437-465 | likewise for ObserveResult |
| `WorkStore.Store.Enqueue` | internal/llmwork/store.go:50-127 | tables and answer are those of the Enqueue transaction |
| `WorkStore.Store.Claim` | internal/llmwork/store.go:142-195 | likewise for Claim, leasing the first unlocked eligible task in the order of the query, and none only if there is none |
| `WorkStore.Store.FirstOf` | internal/llmwork/store.go:177-179 | priority, then the bucket longest without a completed case, then age, then key |
| `WorkStore.Store.Finish` | internal/llmwork/store.go:197-222 | likewise for Finish |
| `WorkStore.Store.Heartbeat` | internal/llmwork/store.go:224-238 | likewise for Heartbeat |
| `WorkStore.Store.MarkProgress` | internal/llmwork/store.go:240-254 | likewise for MarkProgress |
| `WorkStore.Store.Apply` | internal/llmwork/store.go:258-296 | likewise for Apply, for every behaviour of the adapter |
| `WorkStore.Store.Conclude` | internal/llmwork/engine.go:86-118 | how RunOne ends a task for every handler result; it never makes a task completed |
| `WorkStore.Store.TaskRecovery` | internal/llmcapture/dispatch_store.go:527-573 | binds what can be bound, then lists the task's attempts, each once and in key order, refusing more than 256 |
| `WorkStore.Store.JudgeAttempts` | internal/llmwork/recovery.go:39-58 | safe exactly when every attempt may be retried or replayed, progressed when one may be replayed |
| `WorkStore.Store.RecoverExpired` | internal/llmwork/recovery.go:14-71 | the loop over expired leases, item by item, ending at the first that cannot be judged |
| `WorkStore.Store.Cleanup` | internal/llmwork/recovery.go:88-145 | ages waiting rows and sweeps terminal rows without an application |
| `CatalogueRuns.RestoreExact` | internal/cataloguerecovery/store.go:416-530 | when Restore answers true the ten tables hold exactly the captured rows of the hash and every other torrent's rows are untouched |
| `CatalogueRuns.RestoreUndoesRemoval` | internal/cataloguerecovery/store.go:208-530 | whatever happens between removal and successful restore, the rows of the hash are those from before the removal |
| `CatalogueRuns.RemoveRestoreIsIdentity` | internal/cataloguerecovery/store.go:208-530 | a removal restored at once leaves the whole catalogue as it was |
| `RestoreProgress.RestorableExactlyWhen` | internal/cataloguerecovery/store.go:416-530 | exactly when a removal can be restored at once |
| `CatalogueRuns.OtherMechanismNeverRestored` | internal/cataloguerecovery/store.go:401-411 | a removal by any mechanism but blocking and classifier_delete is never restored, whatever happens later |
| `CatalogueRuns.RepeatedRemoval` | internal/cataloguerecovery/store.go:208-226 | when a repeated removal is answered with the same snapshot, and when it is refused |
| `CatalogueRuns.BatchCaptures` | internal/cataloguerecovery/store.go:138-200 | every answer of a batch names a removed snapshot of its hash holding the rows from before the batch; other hashes keep their rows |
| `CatalogueRuns.BudgetIsWhatIsRetained` | internal/cataloguerecovery/store.go:174-199 | in every reachable state the budget is the payload and number of all retained snapshots, within both caps |
| `CatalogueRuns.RemoveOneBudget` | internal/cataloguerecovery/store.go:285-321 | a new removal charges its payload once, a repeated one nothing |
| `RemovalLaws.UnguardedExactly` | internal/cataloguerecovery/store.go:338-386 | the guards pass exactly a hash that no quarantine, label, privacy mark, hint, claim or tag names and that no verdict keeps out |
| `RemovalLaws.RemovedExactly` | internal/cataloguerecovery/store.go:208-322 | a catalogued torrent is removed exactly if it passes those guards, the cascades are known, and its snapshot fits the row, size, budget and count caps |
| `RemovalLaws.RemovedEffect` | internal/cataloguerecovery/store.go:285-322 | what a removal writes: exactly the torrent's rows gone, one snapshot, one charge, one bound tombstone |
| `RemovalLaws.RepeatedExactly` | internal/cataloguerecovery/store.go:211-226 | a torrent that is gone is answered for exactly by the last snapshot of that hash and reason whose event is the newest, if it is in time and still bound by a restorable mechanism |
| `RemovalLaws.BatchIsChain` | internal/cataloguerecovery/store.go:182-192 | a chain of single removals, each starting where the one before ended, is the batch |
| `RemovalLaws.BatchHasChain` | internal/cataloguerecovery/store.go:182-192 | and every batch that succeeds is such a chain |
| `RemovalLaws.BatchExactly` | internal/cataloguerecovery/store.go:138-200 | exactly which calls are looked at and succeed; the others change nothing |
| `RemovalLaws.RemovedBatchUnclaimed` | internal/cataloguerecovery/store.go:138-200 | every torrent a batch has removed was in none of the guard sets when the batch began |
| `RestoreLaws.TablesExactly` | internal/cataloguerecovery/store.go:581-647 | tables can be put back exactly if their captured rows are stored as they were, and the shared sources that are still there are the captured ones |
| `RestoreLaws.RestoredExactlyWhen` | internal/cataloguerecovery/store.go:416-530 | in every reachable state, exactly when Restore answers true |
| `RestoreLaws.RestoreAnswers` | internal/cataloguerecovery/store.go:416-470 | its other answers: a repeated restore, and the refusals in their order |
| `RemovalLaws.RestoredEffect` | internal/cataloguerecovery/store.go:505-520 | what a restore writes: the snapshot is restored and one bound verdict says so |
| `RemovalLaws.RestoredPasses` | internal/cataloguerecovery/store.go:535-576 | right after a restore of its newest snapshot a hash passes the filter exactly unless it is private or quarantined |
| `RemovalLaws.PassesExactly` | internal/cataloguerecovery/store.go:535-576 | exactly which hashes the filter passes: by the bloom filter without a snapshot, by the newest restored and still bound one otherwise |
| `CatalogueRuns.RemovedStaysBlocked` | internal/cataloguerecovery/store.go:535-576 | if only RemoveBatch and Restore write verdicts, a hash has at most one removed snapshot, the newest, and does not pass the filter |
| `CatalogueRuns.SortIncreasing` | internal/cataloguerecovery/store.go:138-173 | the batch is processed in increasing order and loses no hash |
| `CatalogueSafety.CaptureShaped` | internal/cataloguerecovery/store.go:236-280 | a captured payload has all ten tables, only rows of the hash, and exactly the sources its links name |
| `CatalogueSafety.RestoreTablesExact` | internal/cataloguerecovery/store.go:581-647 | after the tables restored so far, those hold exactly their captured rows and nothing else has moved |
| `RecoveryStore.Store.CaptureRows` | internal/cataloguerecovery/store.go:236-278 | the loop over the ten tables captures every row, or stops when rows or bytes exceed their caps |
| `RecoveryStore.Store.RemoveTx` | internal/cataloguerecovery/store.go:208-322 | one removal, with its retry, guards, caps, snapshot, verdict and deletion |
| `RecoveryStore.Store.RemoveBatch` | internal/cataloguerecovery/store.go:138-200 | the batch transaction; any failure leaves every table, the budget and the ledger unchanged |
| `RecoveryStore.Store.RestoreRows` | internal/cataloguerecovery/store.go:581-647 | inserts one table's rows and compares what the table then holds |
| `RecoveryStore.Store.Restore` | internal/cataloguerecovery/store.go:416-530 | the restore transaction; any failure leaves everything unchanged |
| `RecoveryStore.Store.Filter` | internal/cataloguerecovery/store.go:535-576 | keeps exactly the hashes the exact rule passes, in order |
| `BlockingManager.Manager.Filter` | internal/blocking/manager.go:54-99 | the hashes that pass, in order and with repetitions: with recovery attached exactly by the newest snapshot; in a reachable state without foreign verdicts no hash with a removed snapshot |
| `BlockingManager.RemovedNeverKept` | internal/blocking/manager.go:78-97 | in every such state no hash with a removed snapshot is kept, and one without a snapshot exactly if the bloom filter keeps it |
| `BlockingManager.Manager.Block` | internal/blocking/manager.go:101-130 | nothing is buffered unless the removal has committed; then the hashes are buffered, and flushed exactly if asked for or due, with the flush's error |
| `BlockingManager.Manager.FlushBuffer` | internal/blocking/manager.go:145-246 | a failed flush keeps buffer and filter, a successful one empties the buffer and installs what was written |
| `BlockingManager.Manager.Flush` | internal/blocking/manager.go:132-141 | an empty buffer is not flushed; otherwise as flush, so a failure keeps the buffer |
| `BlockingManager.RemovedBatchIsBlocked` | internal/blocking/manager.go:54-130 | after a batch is removed none of its hashes passes, whatever the bloom filter forgets |
| `Availability.EvaluateAvailability` | internal/cataloguepolicy/availability.go:51-131 | the decision on some arrangement of the observations oldest first, by identifier among equal times |
| `AvailabilityLaws.AnyInputOrder` | internal/cataloguepolicy/availability.go:57-63 | under different identifiers that arrangement is unique, so the order of the input does not matter |
| `Availability.ReadObservations` | internal/cataloguepolicy/availability.go:64-94 | the newest fresh positive, the fresh negatives, the last positive and last unknown among the accepted observations |
| `Availability.ThinByGap` | internal/cataloguepolicy/availability.go:98-106 | the greedy choice among the negatives nothing has overtaken |
| `Availability.DescribeNegatives` | internal/cataloguepolicy/availability.go:110-121 | identifiers, earliest expiry and provisional state of the kept negatives |
| `AvailabilityLaws.EligibleIsEvidence` | internal/cataloguepolicy/availability.go:91-106 | what is thinned is exactly the fresh qualified negatives later than every positive and unknown, oldest first |
| `AvailabilityLaws.GreedyCovers` | internal/cataloguepolicy/availability.go:98-106 | what is kept is spaced by the gap and covers every candidate within a gap |
| `AvailabilityLaws.GreedyIsOptimal` | internal/cataloguepolicy/availability.go:98-106 | no set of evidence pairwise a gap apart is larger than what is kept |
| `AvailabilityLaws.SuspicionNeedsEvidence` | internal/cataloguepolicy/availability.go:122-130 | a suspicion rests on enough separated evidence spanning the required time, with no fresh or protecting positive |
| `AvailabilityLaws.EnoughEvidenceSuffices` | internal/cataloguepolicy/availability.go:122-130 | with enough separated evidence and no positive in the way, only the span of what is kept decides |
| `AvailabilityLaws.GreedySpanNearlyWidest` | internal/cataloguepolicy/availability.go:98-128 | the span kept is within one gap of the widest evidence |
| `AvailabilityLaws.WideEvidenceSuffices` | internal/cataloguepolicy/availability.go:98-128 | enough separated evidence, no positive in the way, and a pair spanning the required time and a gap less one: suspected |
| `AvailabilityLaws.GreedySpanCanFallShort` | internal/cataloguepolicy/availability.go:98-128 | enough evidence spanning one less than that, no positive, and the torrent is not suspected |
| `AvailabilityLaws.GreedyIgnoresUnselected` | internal/cataloguepolicy/availability.go:98-106 | dropping expired unselected negatives never changes the greedy choice |
| `AvailabilityLaws.StableUntilExpiry` | internal/cataloguepolicy/availability.go:51-131 | a decision re-evaluated before it expires is the same, except exactly when a recent positive's protection has run out |
| `AvailabilityLaws.ReturnedSuspicionJustified` | internal/cataloguepolicy/availability.go:51-131 | of what is returned on observations under different identifiers: a suspicion has its separated spanning negatives among them, and no admissible positive is fresh or protecting |
| `AvailabilityLaws.ReturnedDecisionStable` | internal/cataloguepolicy/availability.go:51-131 | of two decisions returned on the same observations, the second before the first expires: equal, unless a protecting positive has run out |
| `AvailabilityMeaning.UntrustworthyIgnored` | internal/cataloguepolicy/availability.go:68-71 | an observation that is private, nameless, in the future or expired before it was made changes nothing, wherever it stands |
| `AvailabilityMeaning.RepeatedIgnored` | internal/cataloguepolicy/availability.go:68-72 | an observation whose identifier a trustworthy one before it has changes nothing |
| `AvailabilityMeaning.TrustworthyAccepted` | internal/cataloguepolicy/availability.go:68-72 | a trustworthy one under an identifier of its own is accepted |
| `AvailabilityMeaning.UnusableThresholds` | internal/cataloguepolicy/availability.go:51-56 | the thresholds are refused exactly if they are unusable, and then nothing is decided |
| `AvailabilityMeaning.FreshPositiveExactly` | internal/cataloguepolicy/availability.go:72-97 | the state is fresh_positive exactly if some trustworthy positive is alive; the decision then names the newest of them and lasts as long as it |
| `AvailabilityMeaning.NegativeExactly` | internal/cataloguepolicy/availability.go:98-131 | otherwise it is unknown exactly if nothing counts against the torrent, and else it names the thinned negatives, lasts as long as the first of them to end, and is protected, suspected, stalled or a known zero by explicit conditions on them |
| `ObservationMerge.MergeObservations` | internal/cataloguepolicy/store.go:336-368 | some newest-first arrangement of the union of both lists, capped without losing the newest protecting positive |
| `ObservationMerge.Unite` | internal/cataloguepolicy/store.go:337-347 | both lists in turn, current before previous, the first mergeable observation of every identifier |
| `ObservationMerge.UnionDistinct` | internal/cataloguepolicy/store.go:337-347 | the union has distinct identifiers, only mergeable observations, and misses no identifier |
| `ObservationMerge.UnionExactly` | internal/cataloguepolicy/store.go:337-347 | the union holds exactly the first observation worth keeping of every identifier |
| `ObservationMerge.CappedExactly` | internal/cataloguepolicy/store.go:354-366 | up to 64 observations are all kept; of more the newest 63 always are, and the last place goes to the newest protecting positive if it would be lost |
| `ObservationMerge.CappedShape` | internal/cataloguepolicy/store.go:348-367 | at most 64 observations, distinct identifiers, newest first, nothing invented |
| `ObservationMerge.CappedProtects` | internal/cataloguepolicy/store.go:354-366 | capping keeps a protecting positive as new as any |
| `ObservationMerge.CappedMergeNeverSuspected` | internal/cataloguepolicy/store.go:336-368 | if the uncapped merge holds a protecting positive, the capped merge is never suspected in any order |
| `ObservationMerge.MergedNeverSuspected` | internal/cataloguepolicy/store.go:336-368 | the same of what merging and then evaluating return |
| `Lexers.Lexer.Read` | internal/lexer/lexer.go:27-40 | reads the next character and enables one unread, or neither at the end |
| `Lexers.Lexer.Backup` | internal/lexer/lexer.go:42-48 | requires a directly preceding read, the condition under which the source does not panic |
| `Lexers.Lexer.ReadIf` | internal/lexer/lexer.go:67-79 | consumes a character exactly when it satisfies the test |
| `Lexers.Lexer.ReadChar` | internal/lexer/lexer.go:129-132 | consumes exactly that character |
| `Keywords.LexClassToken` | internal/keywords/parser.go:186-227 | the class read and the text left, for every text; every unread follows a read |
| `Keywords.LexClassWithModifierToken` | internal/keywords/parser.go:157-180 | likewise with its modifier |
| `Keywords.LexGroupToken` | internal/keywords/parser.go:92-155 | likewise for alternatives and groups; the nested loops and the recursion terminate |
| `Keywords.ParseKeyword` | internal/keywords/parser.go:58-66 | parsing one keyword from its first character |
| `KeywordLaws.RoundTrip` | internal/keywords/parser.go:92-227 | the canonical text of every well-formed tree parses to that tree |
| `KeywordLaws.PrintInjective` | internal/keywords/parser.go:92-227 | different well-formed trees have different canonical texts |
| `KeywordLaws.AcceptedIsFormed` | internal/keywords/parser.go:92-227 | a text that parses is consumed to its end, its tree is well formed, and its canonical text parses to the same tree |
| `KeywordLaws.TrailingBar` | internal/keywords/parser.go:126-133 | one trailing bar is accepted and ignored, a second is refused where it stands |
| `KeywordLaws.NoNesting` | internal/keywords/parser.go:105-109 | an opening parenthesis inside parentheses is refused where it stands |
| `KeywordLaws.Refusals` | internal/keywords/parser.go:92-227 | what is refused after any tokens, where and how: stray parenthesis, upper case letter, lone backslash, empty and unclosed group, empty text |
| `KeywordLaws.UnclosedGroup` | internal/keywords/parser.go:134-138 | any group that is not closed is an unexpected end |
| `KeywordLaws.AsciiCase` | internal/lexer/lexer.go:144-146 | the word characters of ASCII are its digits and what has a case; lower and upper case are inverse |
| `KeywordLanguage.LanguageExactly` | internal/keywords/parser.go:92-227 | a text parses to a tree exactly if it is one of the spellings of that tree |
| `CaptureKeys.LengthBytes` | internal/llmcapture/recorder.go:270-275 | the length in eight bytes, most significant first |
| `CaptureKeys.DigestParts` | internal/llmcapture/recorder.go:267-282 | the digest of the length-prefixed encoding of all parts |
| `CaptureKeys.DecodeEncode` | internal/llmcapture/recorder.go:267-282 | the list of parts can be read back from its encoding |
| `CaptureKeys.EncodeInjective` | internal/llmcapture/recorder.go:267-282 | different lists of byte strings have different encodings |
| `CaptureKeys.Recorder.Capture` | internal/llmcapture/recorder.go:68-238 | disabled, refused, private or handed to the store exactly once with its times, and the store's answer passed on |
| `CaptureKeys.Admit` | internal/llmcapture/recorder.go:72-159 | the refusals in order, and the row of an admitted request |
| `CaptureKeys.DigestRow` | internal/llmcapture/recorder.go:160-215 | every digest of the row, its times and its capture key |
| `CaptureKeyLaws.KeysAgree` | internal/llmcapture/results.go:126-153 | for every captured request the recomputed key is the stored key, and the semantic key from the stored row is the request's |
| `CaptureKeyLaws.EqualKeys` | internal/llmcapture/semantic_identity.go:21-64 | equal semantic keys exactly for requests of the same meaning, equal capture keys exactly if the build is the same too |
| `CaptureKeyLaws.CapturedExactly` | internal/llmcapture/recorder.go:68-238 | exactly which requests reach the store, and their row |
| `CaptureKeyLaws.PrivateExactly` | internal/llmcapture/recorder.go:68-238 | exactly which are called private, and how the store's answer is passed on |
| `CaptureKeyLaws.SemanticKeyExactly` | internal/llmcapture/semantic_identity.go:21-64 | exactly which identities have a semantic key |
| `CaptureKeyLaws.KeysExactly` | internal/llmcapture/results.go:126-153 | exactly which requests have a capture key, and which a semantic key |
| `CaptureKeyLaws.KnownTaskExactly` | internal/llmcapture/types.go:145-198 | exactly which tasks go with which candidate source |
| `CaptureKeyLaws.OriginExactly` | internal/llmcapture/types.go:145-198 | how a sampling origin is normalised, and which are refused |
| `CaptureKeyWitness.SomeKeysDistinguish` | internal/llmcapture/recorder.go:68-192 | two captured requests that differ only in build, for which the hypotheses hold: one semantic key, two capture keys |
| `TitleEvidence.TitleIndex.Rebuild` | internal/classifier/evidence_title.go:189-228 | an index that counts exactly the loaded labels, or what there was before |
| `TitleEvidence.CountLabels` | internal/classifier/evidence_title.go:202-225 | votes per title and identity, and every torrent's own ballot |
| `TitleEvidence.TitleIndex.Preferred` | internal/classifier/evidence_title.go:130-166 | on an index of all labels the outcome is the verdict of the other torrents' labels alone, for every iteration order |
| `TitleEvidence.Elect` | internal/classifier/evidence_title.go:139-165 | the same for one title |
| `TitleEvidence.Tally` | internal/classifier/evidence_title.go:142-154 | total and maximum over the votes in any order, the own ballot left out |
| `TitleEvidence.OwnBallotRemoved` | internal/classifier/evidence_title.go:146-149 | with distinct info hashes, leaving the own ballot out is the same as leaving the own label out |
| `TitleEvidence.LeaveOneOut` | internal/classifier/evidence_title.go:130-166 | an index with the torrent's own label and one without it give every identity the same count and the same verdict |
| `TitleEvidence.WinnerUnique` | internal/classifier/evidence_title.go:155-160 | two identities never both have two thirds of the votes |
| `TitleEvidence.AppliedExactly` | internal/classifier/evidence_title.go:155-165 | an identity is applied exactly when it has enough votes and two thirds of them |
| `TitleEvidence.OtherOutcomes` | internal/classifier/evidence_title.go:130-166 | exactly when there is no key, no preference, or a weak vote |
| `EvidenceStore.Store.Insert` | internal/evidence/store.go:69-162 | one insert: refusals, the new row, and the canonical label it leaves |
| `EvidenceStore.CanonicalIsStrongest` | internal/evidence/store.go:116-150 | after any inserts a hash has a label exactly when label-bearing evidence speaks for it, that of the strongest, most recent, earliest inserted |
| `EvidenceStore.AcceptedOnce` | internal/evidence/store.go:84-106 | exactly the first usable evidence under every dedupe key is accepted, once |
| `EvidenceStore.OrderMattersOnlyAmongTies` | internal/evidence/store.go:117-136 | for the same accepted evidence in any order the labels are equally strong and recent, and the same unless exactly tied |
| `EvidenceStore.OtherKindsNeverCount` | internal/evidence/store.go:402-412 | without the evidence of other kinds every label is the same |

## Left out

- SQL text, lock modes and isolation: a transaction is one atomic step on the tables it reads and writes.
- Transactions that straddle midnight, where the code mixes two clock functions: one clock reading per step.
- Append-only event and audit tables, metrics, logging, configuration loading, wiring and health checks.
- HTTP, tracker, DHT and media-manager clients: network plumbing.
- Physical storage sizes: the outcome of a storage check is an argument of the call.
- Fences from before the semantic key column: runs start from empty tables; the hold on unproven captures is modelled.
- Which of the aged rows Claim and Cleanup take first: the rows are an argument. In runs Claim may pick any eligible task, so the theorems hold for the order of its query.
- RunOne's heartbeat goroutine and timeouts: a heartbeat is a step of its own that may come at any time.
- Payload JSON, its digest and its schema version: a snapshot keeps the captured rows themselves, and a row's columns other than its keys are one opaque value.
- Bloom filter internals: a filter is any test on hashes, and a flush may replace it by any other.
- WorkStore.Store.Enqueue: name filters and payload shape are arguments (allowed or not, well formed or not).
- Regular expressions built from keyword trees, and the loop over several keywords: the tree is what is modelled; Unicode letters and case outside ASCII are arbitrary functions.
- Lexer operations the keyword parser does not use: reading runs of characters and integers.
- CaptureKeys.Recorder.Capture: JSON canonicalisation and trimming of white space belong to libraries and are parameters; what the store does with the row is its own, and its answer is an argument.
- Title keys: the reduction of a release name to a key, and of a label to an identity, are foreign; a label carries its ballot.
- TitleEvidence.Tally: the share is compared in integers, three times the best against twice the total; the code compares in floating point, which agrees while totals stay far below the precision of a float64.
- TitleEvidence.TitleIndex.Preferred: the background refresh is not a thread; a rebuild may come between any two calls.
- Post-insert hooks of the evidence store, and evidence that is deleted.
- Saturation of Go durations beyond 292 years.
- Sampling, exports, result traces and the other result tables of the capture package; anime aliases, junk purge and importer buffers: simpler relatives of what is modelled.
