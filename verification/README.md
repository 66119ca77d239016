# Verified model of the Routing Matrix orchestrator

The orchestrator lets many durable task workflows share one usage ledger per account, a global
spend breaker and a per-account rate limiter. Each workflow reserves the projected cost of its task,
learns whether the account is degraded, asks the breaker, routes the task to a tier, settles the
reservation to the routed cost, records the spend, dispatches, and writes its durable status row.

The model is layered:

- **One account's ledger** (`AccountLedger`, `KeepingLedger`, `FreeCharges`, `WindowedSpend`): prune,
  sum, reserve, settle and balance on a list of charges in id order, and what they bound.
- **The stores.** `ChargeTable` is the shared `usage_charges` table and its statements. `SqliteStore`
  is the store class, one atomic step a method. `PgTransactions` is the Postgres store one statement
  at a time, with lock rows, uncommitted changes, a bounded pool and aborts; `PgRefinement` proves
  every interleaving atomic in commit order, `PgProgress` that it never deadlocks and always ends,
  `PgSerial` that every list of calls has a run.
- **One workflow** (`TaskWorkflow`): the next activity as a function of the recorded outcomes, and the
  imperative body of `run` proved to follow it.
- **All workflows** (`Orchestration`): any interleaving of activity attempts, which succeed, fail with
  no effect, or (for the activities a configuration lists as lossy) take effect and are reported as
  failed. `Conservation`, `SpendLimits`, `BreakerOvershoot` and `DurableRows` prove what every
  reachable state keeps, `CallsMade` and `FrontierRouting` what a workflow's place says about the run so
  far, and `WindowedFrontier` what one usage window keeps once charges expire.
  `RunSteps`, `OvershootRuns` and `SampleRuns` build the runs that fail without a hypothesis.
- **Crashes** (`DurableExecution`): workers that lose their locals at any point and replay history.
- **Submission** (`Submission`, `PgClaims`, `Api`): interleaved submitters claiming idempotency keys.
- **The rest**: `RateLimit` (token bucket), `SpendBreaker`, `Classifier`, `Router`, `TaskTable`.

How the layers are related, each by a lemma or a method's contract:

- Both stores are proved against the functions of `AccountLedger`, and both forms of the claim
  against `Submission`.
- The ledger that `Orchestration` shares is the stores': `StoreLinks` makes each attempt on it a call
  of the SQLite store, and all attempts of a run the commits of a Postgres run with the same answers.
- The breaker it shares is the `SpendBreaker` object after the costs recorded (`BreakerHoldsRecords`).
- A crashing execution is a run of `Orchestration` (`CrashesAreInvisible`), which drives each workflow
  by the same functions as the body of `run`.
- What `Api` does to the tables, a run of the submitter in `Submission` does (`SubmissionIsARun`).
- Not related by proof: the limiter's answers are arbitrary in `Orchestration` and `Submission`
  (`LimiterNeverGates` says why that loses nothing in a run), and a start in `Submission` is not
  joined to the `Begin` step of `Orchestration`, which creates the task's row itself.

Amounts and clock readings are exact reals. Clocks, uuids, limiter answers and failures are
parameters, so every statement holds for all of them. The clock is an arbitrary reading per
operation unless a lemma asks for an ordered one. The Postgres layer takes read-committed visibility
as given: a statement sees the committed table under its own transaction's changes.

Findings, with their exact conditions:

- Conservation fails once a charge expires before it is settled, since the settlement then takes
  another task's (`ExpiryBreaksConservation`), or when a settlement that lowered a charge is made
  again. A run conserves in every state if and only if neither happens (`ConservedExactly`); that is
  the hypothesis `BooksKept` of the budgets, and the `FreeCharges` bounds do without it.
- The budget of one usage window can be exceeded although every settlement is in time
  (`WindowBudgetCanBreak`). The next reservation can break it if and only if there is room on the
  ledger and settlements took more off the live charges of non-degraded reservations than the live
  charges of degraded ones still hold (`NextReservationExactly`); a run keeps it throughout if and only
  if no reservation crosses (`BudgetExactly`), and then it bounds the frontier spend of every window
  (`WindowFrontierBudget`).
- Destructive pruning shows if and only if an operation that deletes read a later clock than one
  after it (`PruningIsInvisible`, `BackwardClockIsVisible`); a clock that steps back is credited by the
  limiter on its way forward again (`BackwardClockRefills`), and the elapsed-time envelope describes
  the limiter if and only if the clock never does (`ElapsedTimeExactly`).
- Records that are repeated overshoot the breaker by up to three frontier costs a workflow
  (`RepeatedRecords`); exactly which configurations keep to one is `OvershootExactly`.
- A FAILED row keeps the cost of a routing exactly when its COMPLETED write took effect and was
  reported as failed (`FailedRowWithCost`, `CostMeansCompletion`), which is also exactly when a terminal
  row is ever left (`TerminalRowChanges`).
- Two submissions of one key can be answered with an id that has no task, exactly while (or because)
  the claimer has not got past creating the row (`DuplicateWithoutTask`, `DuplicateFindsTask`), and a
  task whose submitter stops before the start is accepted for good (`StrandedForGood`).
- The two stores create a task row differently exactly when a row of that id already carries a result
  (`CreateFormsAgree`), which cannot happen in submissions (`CreateFormsAgreeHere`).

## Model

| member | source | states |
|---|---|---|
| KeepingLedger.PruningIsInvisible | orchestrator/store.py:205-288 | every answer of reserve, settle and balance equals that of a ledger that keeps all rows and only filters by the window, from every ledger, if and only if no operation that commits its prune read a later clock than an operation after it |
| KeepingLedger.BackwardClockIsVisible | orchestrator/store.py:205-288 | three reservations from the empty ledger, with a clock that steps back, whose answers differ |
| AccountLedger.ExpiredTakesAnother | orchestrator/store.py:240-262 | a concrete run in which a task whose charge has expired settles another task's charge instead |
| AccountLedger.RevalueHitsNewest | orchestrator/store.py:245-257 | settle by value changes exactly the newest charge of the reserved amount |
| AccountLedger.RevalueEffect | orchestrator/store.py:245-262 | it moves one unit of the multiset of amounts and shifts the total by the difference, or changes nothing when no charge has the amount |
| AccountLedger.SettleTwice | orchestrator/store.py:234-264 | a repeated settlement, with its own prune, changes nothing beyond what expired if and only if it changes no amount or no live charge is left at the reserved amount; at the same clock reading, if at most one live charge had it |
| AccountLedger.SettleNeverRaises | orchestrator/store.py:234-264 | settling at no more than the reserved amount never raises the balance, whichever row it hits |
| AccountLedger.AnswersAreBalances | orchestrator/store.py:209-264 | what reserve and settle answer is the total of the charges the account then holds |
| FreeCharges.FreeTotalBelowThreshold | orchestrator/store.py:209-220 | under any mix of operations, clocks and pruning, the surviving charges of non-degraded reservations sum to strictly less than a positive threshold |
| FreeCharges.NoFreeReservation | orchestrator/store.py:215-216 | at a threshold of zero or less every reservation is degraded |
| FreeCharges.TagsAreInert | orchestrator/store.py:209-262 | the tagged ledger used to say which charges were non-degraded is the ledger itself once the tags are erased |
| WindowedSpend.WindowBudget | orchestrator/store.py:209-262 | what the non-degraded reservations of one window asked for is what their live charges hold, which stays below a positive threshold, plus what settlements took off them |
| WindowedSpend.NextReservationExactly | orchestrator/store.py:209-221 | no next reservation, whatever it asks for, can take the window to the threshold if and only if the ledger is full or settlements took no more off the live charges of non-degraded reservations than the live charges of degraded ones still hold |
| WindowedSpend.BudgetExactly | orchestrator/store.py:205-262 | a run whose deletions are in clock order keeps the budget of every window after every operation if and only if no non-degraded reservation crosses: what the window's non-degraded charges hold, what was taken off them and its cost reach the threshold |
| WindowedSpend.WindowBudgetCanBreak | orchestrator/store.py:245-257 | seven operations, every settlement in time, after which three frontier-priced reservations of one window exceed the threshold, because a degraded task settled on a newer task's charge |
| WindowedFrontier.FrontierInWindowSpend | orchestrator/workflow.py:368-395 | in any run, the summed cost of an account's frontier-routed tasks granted in a window is at most what the window's non-degraded reservations asked for |
| WindowedFrontier.WindowFrontierBudget | orchestrator/workflow.py:368-395 | in any run, expired charges and repeated effects included, in which deletions are in clock order and no reservation crosses, the account's frontier-routed tasks granted in one window cost less than a positive threshold |
| WindowedFrontier.GrantedOnce | orchestrator/workflow.py:368-374 | no run grants a workflow two reservations, so no task is counted twice |
| ChargeTable.SelectNewestIsGreatest | orchestrator/store.py:247-252 | the selected id is the greatest among the account's rows of the amount, and none exactly when there is no such row |
| ChargeTable.DeleteExpiredRemoves | orchestrator/store.py:284-288 | the prune deletes exactly the account's rows older than the cutoff |
| ChargeTable.UpdateSelectedIsRevalue | orchestrator/store.py:247-257 | because ids ascend, selecting by value and updating by id revalues the newest matching charge |
| SqliteStore.SqliteAtomicStore.Sweep | orchestrator/store.py:284-288 | one account's expired charges go, no other account's rows move, and ids stay in insertion order |
| SqliteStore.SqliteAtomicStore.Reserve | orchestrator/store.py:196-232 | the account's charges and the answer are those of the atomic ledger, no other account's rows move, and a failed transaction leaves no trace |
| SqliteStore.SqliteAtomicStore.Settle | orchestrator/store.py:234-269 | the same for settle |
| SqliteStore.SqliteAtomicStore.Balance | orchestrator/store.py:271-282 | the sum inside the window, with nothing changed: its prune is never committed |
| SqliteStore.SqliteAtomicStore.RegisterIdempotency | orchestrator/store.py:292-320 | the mapping is written once, by the one call that is told it created it; all others get the stored id |
| SqliteStore.SqliteAtomicStore.CreateTask | orchestrator/store.py:336-354 | the task is accepted with no result, whatever row had the id; no other row changes; a failed insert changes nothing |
| SqliteStore.SqliteAtomicStore.SetTaskStatus | orchestrator/store.py:356-376 | status, error, tier and pointer become what is written, a cost once written is never lost, owner, key, trace and creation time stay, no other row changes, an unknown id writes nothing and so does a failure |
| SqliteStore.SqliteAtomicStore.GetTask | orchestrator/store.py:378-393 | returns the row exactly when it belongs to the asking account |
| TaskTable.CreateFormsAgree | orchestrator/postgres_store.py:389-419 | the Postgres and SQLite forms of creating a task give the same table if and only if no row of that id carries an error, tier, pointer or cost |
| PgRefinement.StepRefinement | orchestrator/postgres_store.py:203-325 | in every state of every interleaving of statements, commits and aborts, each account's committed charges and every committed answer are those of running the committed transactions atomically in commit order, each logged exactly once, aborted ones not at all |
| PgRefinement.StepKeepsInv | orchestrator/postgres_store.py:233-325 | one statement of any transaction keeps the invariant: locks exclusive, ids owned and ascending per account, each transaction's private view equal to the atomic operation's intermediate result |
| PgRefinement.CriticalApart | orchestrator/postgres_store.py:233-246 | two transactions past their row locks are on different accounts |
| PgRefinement.CommitHere | orchestrator/postgres_store.py:259-325 | publishing a transaction's uncommitted changes applies its atomic operation to its account and returns its answer |
| PgRefinement.CommitElsewhere | orchestrator/postgres_store.py:262-325 | publishing them changes no row of another account, although updates and deletes go by id alone |
| PgSerial.SerialRun | orchestrator/postgres_store.py:203-325 | with at least one connection, every list of calls has a run that commits them all in order |
| PgSerial.AccountProjection | orchestrator/postgres_store.py:203-325 | in any run, an account's committed charges and answers are those of a run of only that account's committed calls, despite the shared table, pool and id sequence |
| StoreLinks.Perform | orchestrator/workflow.py:140-229 | an attempt on the shared ledger, made on the SQLite store, answers as the ledger does, which is the result the workflow is given when the attempt succeeds, and leaves the table showing the ledger after the step |
| StoreLinks.PostgresServes | orchestrator/workflow.py:140-229 | a Postgres run that commits the workflows' calls in their order leaves every account the workflows' charges and gave the workflows' answers |
| StoreLinks.PostgresCanServe | orchestrator/workflow.py:140-229 | every run of the workflows is served by some run of the Postgres store |
| PgProgress.Progress | orchestrator/postgres_store.py:145-246 | with at least one connection no reachable state is stuck before every transaction finished, no run exceeds eight statements a call, and the pool bound always holds |
| PgProgress.SomeoneAdvances | orchestrator/postgres_store.py:203-246 | while a transaction is unfinished some statement can run, whatever the others wait for |
| PgProgress.LockRowsExactly | orchestrator/postgres_store.py:203-246 | the lock rows that last are exactly those of accounts with a committed transaction |
| RateLimit.AnswerExactlyByClock | orchestrator/rate_limit.py:39-59 | for nondecreasing clocks call k is allowed if and only if, for every earlier-or-equal call j, the calls allowed since j plus one stay within capacity plus rate times the elapsed time |
| RateLimit.ElapsedTimeExactly | orchestrator/rate_limit.py:39-59 | that statement says every answer of every limiter if and only if the clock readings never decrease |
| RateLimit.AnswerExactly | orchestrator/rate_limit.py:39-59 | the same for arbitrary clock readings, counting only the seconds by which the clock moved forward |
| RateLimit.BoundedForAnyClock | orchestrator/rate_limit.py:39-59 | tokens stay within zero and capacity, and the calls allowed in all are bounded by capacity plus the credited refill |
| RateLimit.BackwardClockRefills | orchestrator/rate_limit.py:42-45 | a concrete run with a backward step that exceeds the elapsed-time envelope |
| RateLimit.TokenBucketLimiter.Allow | orchestrator/rate_limit.py:48-59 | the answer is that of the account's own call history, which alone determines its bucket; no other account's entry differs |
| RateLimit.TokenBucketLimiter.Tokens | orchestrator/rate_limit.py:39-46 | the refilled bucket is the level the account's history gives |
| RateLimit.NewLimiter | orchestrator/rate_limit.py:30-37 | a limiter exists exactly for a positive rate and capacity |
| BucketLevels.LevelIsLeastEnvelope | orchestrator/rate_limit.py:39-59 | the tokens available to a call are the least envelope over all windows ending at it |
| SpendBreaker.CircuitBreaker.Record | orchestrator/circuit_breaker.py:54-59 | the breaker's fields follow the costs recorded so far |
| SpendBreaker.CircuitBreaker.EffectiveDegraded | orchestrator/circuit_breaker.py:65-72 | degraded exactly when the account is or the recorded costs have tripped the breaker |
| SpendBreaker.NewBreaker | orchestrator/circuit_breaker.py:31-37 | a breaker exists exactly for a nonnegative threshold |
| SpendBreaker.TrippedExactly | orchestrator/circuit_breaker.py:48-59 | tripped if and only if the running total reached the threshold at some record, and latched from then on |
| SpendBreaker.TrippedByTotal | orchestrator/circuit_breaker.py:54-59 | with nonnegative costs, tripped if and only if something was recorded and the total is at the threshold or over |
| BreakerOvershoot.OvershootBound | orchestrator/workflow.py:376-400 | with at most N workflows at a time past a frontier-allowing check and not yet recorded, the cost ever recorded for frontier-routed tasks is below a positive breaker threshold plus N frontier tasks in every run in which none of their records is repeated, and plus three times N in any run; at a threshold of zero it is at most that |
| OvershootRuns.OvershootExactly | orchestrator/workflow.py:50-55 | every run of a configuration keeps the bound of N if and only if records are never reported as failed after taking effect, or frontier has no pointer, or one frontier cost reaches the account threshold |
| OvershootRuns.RepeatedRecords | orchestrator/workflow.py:376-400 | in any other configuration, for every N a run with at most N such workflows at a time records three frontier costs for each |
| BreakerOvershoot.BreakerHoldsRecords | orchestrator/circuit_breaker.py:54-59 | the shared breaker is the breaker after exactly the costs the run has recorded |
| BreakerOvershoot.NoFrontierAfterTrip | orchestrator/circuit_breaker.py:54-72 | once tripped, always tripped, and a task not yet checked by then is never routed frontier |
| Classifier.Classify | routing_matrix/classifier.py:78-114 | the score is two for each keyword found, one for each structural word found and two for a listed task type; the tier is advanced exactly at three or more and standard below |
| Classifier.TierByWeight | routing_matrix/classifier.py:82-114 | the tier the rest of the model uses is the one that weight gives |
| Classifier.ScoreMonotone | routing_matrix/classifier.py:82-97 | text added around a prompt never lowers its score |
| Classifier.OverlapForcesAdvanced | routing_matrix/classifier.py:17-43 | any prompt containing "refactoring" or "multiple files" is advanced, through overlapping keywords |
| Router.Route | routing_matrix/core.py:48-87 | the tier is the one chosen for the task and never frontier when degraded, with the pointer configured for it; the cost is 0.0001, 0.001 or 0.01 exactly as the tier is standard, advanced or frontier; it fails exactly when that tier has no pointer |
| Router.TierFor | routing_matrix/core.py:48-76 | frontier exactly for an escalated task that is not degraded, advanced for one that is, and the classified tier for any other |
| Router.ProjectionBounds | orchestrator/costing.py:24-48 | the routed cost never exceeds the projection, and equals it unless an escalated task is capped |
| Router.ProjectCost | orchestrator/costing.py:41-48 | 0.01 exactly for an escalated task, else 0.001 or 0.0001 exactly as it is classified advanced or standard |
| Router.ProjectionMonotone | orchestrator/costing.py:41-48 | adding text to a prompt never lowers its tier or projected cost, and raises the cost exactly when it changes the tier of a task that is not escalated |
| TaskWorkflow.GatherReason | orchestrator/workflow.py:441-446 | the cause-chain loop builds the joined reason |
| TaskWorkflow.ReasonListsOutermostFirst | orchestrator/workflow.py:441-446 | the reason lists the failures from the outermost to the root cause, each as type and message, with an arrow between them |
| TaskWorkflow.ReasonShowsEveryCause | orchestrator/workflow.py:441-452 | the dead-letter reason is never empty and shows every failure on the cause chain |
| TaskWorkflow.Run | orchestrator/workflow.py:346-464 | a run that returns has made exactly nine calls (running mark, rate-limit check, reservation of the projection, breaker check on the reservation's flag, routing on the check's answer, settlement, record, dispatch and completion mark, all with the values returned before) and returns the decision it dispatched; a run that raises has made them up to the one that failed, and one FAILED write with its reason; at most ten calls and thirty attempts |
| TaskWorkflow.HistoryTells | orchestrator/workflow.py:356-454 | every history of the workflow is those calls in order, or the calls up to the first that failed and the FAILED write |
| TaskWorkflow.ActivityService.Execute | orchestrator/workflow.py:50-55 | the outcome recorded for a call is that of its first attempt that returned, among at most three, else of the third |
| TaskWorkflow.Decide | orchestrator/workflow.py:359-387 | the first half of the body ends with the reservation and the decision its replayed locals hold, or has raised |
| TaskWorkflow.Conclude | orchestrator/workflow.py:389-435 | the second half ends completed with that decision, or has raised |
| TaskWorkflow.DeadLetter | orchestrator/workflow.py:437-454 | exactly one more event, the FAILED write with the exception's reason, and then raised; the row counts as written exactly when that write returned |
| TaskWorkflow.AtMostTenCalls | orchestrator/workflow.py:346-464 | no history of the workflow ever holds more than ten activity calls |
| TaskWorkflow.RateLimitAnswerIgnored | orchestrator/workflow.py:363-366 | two whole histories that differ only in the rate-limit answer replay to the same locals |
| Orchestration.AtMostThirtyAttempts | orchestrator/workflow.py:50-62 | in any interleaving no workflow makes more than thirty attempts, and one with none left is over |
| Orchestration.EveryRunEnds | orchestrator/workflow.py:437-464 | no interleaving takes more than thirty-one steps per workflow, and one that cannot go on without a new submission has brought every workflow to its end |
| Orchestration.LimiterNeverGates | orchestrator/workflow.py:364-366 | a run with any other limiter answers is a valid run with the same systems in every state |
| Orchestration.RunOk | orchestrator/workflow.py:368-423 | in every reachable state a workflow's reservation is its task's projection, its effective flag includes the account's, its decision is one routing of its task, and its orphaned reservations are at most two, or three if it never got one |
| Orchestration.NextCanSucceed | orchestrator/workflow.py:346-454 | the next activity of a workflow that is not over can succeed, except routing when the chosen tier has no pointer |
| FrontierRouting.CheckExactly | orchestrator/workflow.py:170-190 | the effective flag of a breaker check is set if and only if the account's is or some running total of the costs recorded before the check reached the breaker's threshold |
| FrontierRouting.FrontierExactly | orchestrator/workflow.py:376-387 | a routed task is frontier, ever after in any run, if and only if it was escalated, its reservation was not degraded and the breaker was not spent at its check |
| FrontierRouting.DegradedExactly | orchestrator/store.py:209-216 | its reservation is degraded if and only if what its account held in the window at the grant and its own projection reached the threshold |
| FrontierRouting.RecordAnswersExactly | orchestrator/workflow.py:246-256 | a record answers that frontier is allowed if and only if no running total, its own included, has reached the threshold |
| CallsMade.PlaceMeansCalls | orchestrator/workflow.py:356-423 | in every reachable state every call before a workflow's place has been a successful attempt of that workflow, with the values its locals hold |
| CallsMade.CompletedMeansDispatched | orchestrator/workflow.py:389-423 | a COMPLETED row carries the decision with which its workflow's settlement, record and dispatch succeeded |
| CallsMade.RowStaysWithItsTask | orchestrator/store.py:356-376 | a task's row keeps the account, key, trace and time it was submitted with, however the run goes on |
| CallsMade.RowsAreStamped | orchestrator/store.py:366-374 | a row's time stamp is that of its submission or its last effective status write, and nothing else changes it |
| Conservation.ConservedExactly | orchestrator/store.py:234-262 | a run conserves what its workflows owe in every state if and only if no attempt that changed the ledger found an expired charge of its account and no settlement was reported as failed after changing an amount |
| Conservation.ConservedUnlessExpired | orchestrator/store.py:240-262 | where settlements are never reported as failed after taking effect, a run conserves in every state if and only if no attempt that changed the ledger found an expired charge |
| Conservation.ChargesAreConserved | orchestrator/store.py:234-262 | under that condition each account's multiset of charges and its total are exactly the projections of unsettled tasks, the costs of settled ones and the orphans of reservations reported as failed |
| SampleRuns.ExpiryBreaksConservation | orchestrator/store.py:240-257 | a run of two workflows, nothing repeated, in which one settles on the other's charge after its own expired |
| Conservation.SettleConserves | orchestrator/workflow.py:389-395 | a settlement keeps that balance even when it revalues another task's row |
| Conservation.ReserveConserves | orchestrator/workflow.py:369-374 | a reservation keeps it, also when the attempt is reported as failed after taking effect |
| SpendLimits.FrontierBudget | orchestrator/workflow.py:368-395 | an account's frontier-routed tasks together cost strictly less than a positive threshold in every reachable state of every interleaving that keeps the books; at zero or less there are none |
| SpendLimits.FewFrontier | orchestrator/store.py:209-221 | in a run that keeps the books, any nonempty set of an account's frontier-routed tasks costs less than the threshold |
| SpendLimits.NotBothFrontier | orchestrator/store.py:209-221 | in a run that keeps the books, two tasks of one account that together reach the threshold are never both routed frontier |
| SpendLimits.SettlementsOnlyLower | orchestrator/workflow.py:389-395 | in any run, pruning and repeated effects included, a settle attempt never raises its account's balance |
| DurableRows.RowsTellTheRun | orchestrator/workflow.py:415-452 | a COMPLETED row's tier, pointer and cost are those of one routing of its task, never frontier if the effective flag was set; a FAILED row has a reason and none of them; a run that raised left FAILED with its reason unless the final write was given up |
| DurableRows.StepRows | orchestrator/store.py:366-374 | when no status write is reported as failed after taking effect, statuses only move from ACCEPTED through RUNNING to COMPLETED or FAILED, and a terminal row is never changed by a step |
| DurableRows.TerminalRowsStay | orchestrator/workflow.py:58-62 | under the same condition a terminal row stays as it is however the run goes on |
| DurableRows.TerminalRowChanges | orchestrator/workflow.py:415-452 | in any run, a terminal row changes in more than its time stamp if and only if it is COMPLETED and its workflow, whose COMPLETED write was reported as failed until its attempts were exhausted, makes its FAILED write |
| DurableRows.LossyRunRows | orchestrator/store.py:369-373 | when status writes may take effect and be reported as failed, a FAILED row still has a reason, no tier and no pointer, and any cost it carries is the routed cost |
| DurableRows.CostMeansCompletion | orchestrator/store.py:369-373 | a row carries a cost if and only if a COMPLETED write of its workflow took effect |
| SampleRuns.FailedRowWithCost | orchestrator/workflow.py:415-452 | in every configuration in which status writes can be lost and frontier can be routed, a run that leaves a FAILED row with a cost |
| DurableExecution.CrashesAreInvisible | orchestrator/workflow.py:15-17 | any run with crashes, restarts and replays ends with the ledger, breaker, rows and workflow locals of the run without them, and no replay asks for another activity than the recorded one |
| DurableExecution.Resumption | orchestrator/workflow.py:337-464 | from any reachable state a restarted worker replays its whole history to exactly the locals it stands for, changing nothing else |
| DurableExecution.BudgetSurvivesCrashes | orchestrator/workflow.py:15-17 | the frontier budget, at a positive threshold and at zero or less, holds through any number of crashes |
| Submission.OneTaskPerKey | orchestrator/api.py:111-144 | of all submitters of one key, every returned id is the same, and at most one claims it, has a task row or starts a workflow |
| Submission.KeysAreWriteOnce | orchestrator/store.py:292-320 | a key's mapping never changes once written |
| Submission.RefusedExactly | orchestrator/api.py:103-106 | a submitter is refused if and only if the limiter denied its first step, and let through if and only if it allowed it |
| Submission.RefusedLeavesNothing | orchestrator/api.py:103-117 | a denied submitter has no mapping, no row and no start in any state |
| Submission.RowsAreTheirs | orchestrator/api.py:117 | a task's row carries the account, key and trace its submitter asked for, and is accepted |
| Submission.StartsHaveRows | orchestrator/api.py:117-144 | no workflow is started twice and every started workflow already has its own row |
| Submission.DuplicateFindsTask | orchestrator/api.py:111-144 | the id handed to a submitter has a task row if and only if its claimer has got past creating it, and a started workflow if and only if its claimer started it |
| Submission.StrandedForGood | orchestrator/api.py:117-144 | a task whose submitter stops between create and start keeps its accepted row for good and never gets a workflow |
| Submission.DuplicateWithoutTask | orchestrator/api.py:111-117 | a concrete run in which a duplicate is handed an id without a task |
| Submission.CreateFormsAgreeHere | orchestrator/postgres_store.py:389-419 | in submissions both stores create the row alike, since the id never has one |
| PgClaims.ClaimFormsAgree | orchestrator/postgres_store.py:346-375 | the insert-then-select claim, interleaved statement by statement, is the check-then-insert claim, and its assertion that the mapping exists never fails |
| Api.OrchestratorAPI.Submit | orchestrator/api.py:86-144 | refused submissions leave no durable trace, a duplicate gets the existing id and changes nothing, any other writes one mapping, one row and one start, up to the first that fails |
| Api.OrchestratorAPI.Place | orchestrator/api.py:108-144 | claim, create and start, in that order, each failure stopping the rest: a failed create leaves the key claimed with no row and no workflow |
| PlacementRuns.PlacementIsARun | orchestrator/api.py:108-144 | what placing a submission does to the tables and returns, its submitter does in the interleaved protocol, from any state of the others |
| PlacementRuns.SubmissionIsARun | orchestrator/api.py:100-144 | the whole submission is a run of its submitter from its arrival: refused, with the tables as they were, or placed |
| Api.OrchestratorAPI.GetStatus | orchestrator/api.py:148-161 | a row only for its owner; another account's task is told apart from a missing one |

## Left out

- Postgres `balance()`: it commits its prune without the row lock, so it is not part of the refinement of `PgTransactions`; its answer, with a committed prune, is `BalanceOp` of `AccountLedger`.
- The Postgres store and the interleaved workflows are modelled on values as state machines, not as classes: their content is the order of steps of different participants.
- The `lossy` activities cover an attempt that takes effect and is reported as failed; an abandoned attempt whose effect arrives after its retry is not modelled, and neither are timeouts, backoff delays and cancellation.
- DurableRows.RowsTellTheRun: assumes that a status write reported as failed was not made; `LossyRunRows` and `CostMeansCompletion` say what remains without that.
- Rounding of floating-point sums; reserved amounts are compared exactly.
- The `reset` helpers of the store, limiter and breaker, which clear what the invariants are about.
- Reading settings from the environment, the SQL schema, and connection handling beyond the pool's bound.
- Lower-casing and Unicode white space in the classifier: prompts are lower-cased character sequences; the signal and rationale texts are not modelled.
- Provider dispatch and the later-phase hand-offs, whose results the workflow ignores; structured logging, which nothing reads back; and the in-memory usage accumulator, which the stores replace.
