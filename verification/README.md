# Rising Intelligence: a verified model

This project models the two event-driven halves of the system and the in-memory structures they rest on, and
proves what they promise over every input, schedule or history.

**The brief request protocol.** Several workers consume one partition of the summary-request topic with
at-least-once delivery. `BriefProtocol` is the step system: every Postgres, Redis, Kafka or generation call of an
execution is one atomic step that succeeds, fails without effect, or fails after taking effect; workers poll from
the committed offset or go on where they stood, commit early, and crash at any point. `BriefOrchestrator` is the
orchestrator in the code's own shape, with its try and catch phases, its mutable `budgetDecision` and
`persistedCreated`, and other workers changing the shared state between any two of its calls, proved to take exactly
those steps. `BriefAgreement`, `BriefMoney`, `BriefResults` and `BriefCharges` hold the theorems over every schedule;
`BriefStranding` and `BriefExactness` say exactly when a reservation is left behind and when money is conserved;
`BriefOutcomes` says how each request ends, call by call, and with what stored, published and charged.
`BudgetLedger` is the Postgres ledger and the arithmetic of its row; `BudgetMirror` is the race of the mirror commands
that follow Redis reservations.

**The ingest protocol.** `MessageBatch` is the shared batch loop, `CircuitBreaker` the breaker read as a function
of its whole history, `PersistBatch` and `Persister` the archive writer with its stages, seen marks and commits in every
schedule, `PersisterProgress` what a batch achieves. `TrendWindows` and `Evidence` are the Lua script over dedup sets,
counters, story sets and trimmed sorted sets, `TrendTracking` the effect of one event said without the script.
`HackerNews` is the "new" cursor with its blocked flag and the collector loop around it.

**Algorithms with a simple specification.** `Grounding` and `BriefGeneration` (citations of every provider path),
`GroundingOutcomes` and `GenerationOutcomes` (what is kept, when a path succeeds or falls back), `TopicRanking` and
`RankingMeaning` (recency-weighted ranking and the group cap), `TopicExtraction` (match, sort, cut), `TopicGlob` (the
glob compiler against the pattern grammar and matching rules of section 22.2.2 of ECMA-262), `MatcherCache` (the LRU
cache), `Retag` (keyset pagination over rows that its own updates change). `Ordering` is sorting by a strict total
order, `Strings` the trimming of strings.

Money is whole micro-USD; ranking scores are reals. Foreign calls appear as the outcomes they can have; clocks,
URL canonicalisation, topic matching, collation and the model's answers are parameters.

## What the proofs found

Seven promises hold under a condition only. The lemmas named here give the exact condition and, but for the third,
a concrete input.

1. *A reservation can be released twice.* In the duplicate branch the release may take effect and still throw; the
   budget decision is then still pending, and the catch block releases it again (brief-orchestrator.ts, lines 264
   and 313-335). `BriefCounterexample.MoneyIsLost` is such a schedule.
2. *A reservation can be left behind.* A guarded increment that takes effect and throws, or a rollback that fails, ends
   an execution while its reservation is neither rolled back nor charged (`BriefStranding.ThrewHolding`: in these two
   cases and no others), and so does a crash; `BriefCounterexample.ReservationIsStranded` is such a schedule,
   `BriefStranding.StrandedExactly` the exact condition. Conservation fails through 1 and 2 and through nothing else:
   `BriefExactness.ConservedExactly`.
3. *Settlements round, and a brief may have no charge.* Costs carry six decimals, the `spent_usd` column four, so a
   settled charge is the cost as the column stores it (`BudgetLedger.StoredRounds`, `BriefCharges.ChargedOnce`). A
   stored brief has no charge exactly when its insert took effect and threw (`BriefCharges.BriefsAreCharged`).
4. *Mirrors can lose the maximum.* The re-read and the update of a mirror are two calls
   (budget-mirror.ts, lines 74-99). `BudgetMirror.Confluence` gives the exact condition, `LostUpdate` the race, and
   `AtomicConfluence` the promise with the two taken as one.
5. *A story can be skipped.* An id that a listing shows for the first time after the checkpoint has passed it is
   never fetched. `HackerNews.NoSkippedStory` is an equivalence with that condition; `LateStoryIsSkipped` is the
   input.
6. *Re-scored evidence.* An id that returns in a later dedup bucket is applied again. The evidence then shows the top K
   of the last scores if and only if no listed member was scored below an entry trimmed away
   (`TrendWindows.TopKExactly`); `RescoringLosesTheTop` is such a trace. An id applied again with its old score does
   no harm (`StreamingTopK`).
7. *A canonicaliser that moves evidence lets citations escape.* Evidence is canonicalised once, an offered citation
   before it is offered, when it is compared, and again when highlights are merged. Results are grounded on all
   provider paths if and only if every evidence URL that is a canonical form of a canonical form is mapped into its
   topic's evidence (`BriefGeneration.SuccessIsGrounded`); for the enforcement function alone every evidence URL counts
   (`Grounding.EnforcedIsGrounded`). Evidence whose path ends in two slashes, cited with three, gets through
   (`UnstableCitationEscapes`), and evidence that no second canonical form reaches cannot be cited at all
   (`NothingCitable`).

## Model

| member | source | states |
|---|---|---|
| BriefAgreement.Agreement | apps/brief/src/brief-orchestrator.ts:169-194 | over every schedule of workers, failures, crashes and redeliveries, whatever is published for a request equals its one stored row, so no two publications of a request differ and nothing is published before a row exists |
| BriefAgreement.RowsAreFinal | apps/brief/src/result-store-facade.ts:50-70 | a stored result and a publication survive every continuation of a schedule unchanged |
| BriefAgreement.NoLostRequest | packages/pipeline/src/transport/index.ts:405-480 | over every schedule, an acknowledged position or one below the committed offset was empty, undecodable, or a request whose stored result is published |
| BriefAgreement.AcknowledgedByReturn | packages/pipeline/src/transport/index.ts:405-480 | a request at such a position was answered by an execution that returned normally: at an earlier point of the schedule a worker was about to acknowledge it for that |
| BriefAgreement.DuplicateRowIsFound | apps/brief/src/brief-orchestrator.ts:264-279 | whenever an execution re-reads the row after a duplicate insert, the row is there: the error branches for a missing row are not reached |
| BriefAgreement.ExecutionStepMoves | apps/brief/src/brief-orchestrator.ts:157-360 | each of the thirteen stages leaves rows and publications alone, or inserts the row of its own request where there was none, or publishes the stored row of its own request |
| BriefAgreement.RunConsistent | apps/brief/src/brief-orchestrator.ts:157-360 | agreement of rows, publications, stages, acknowledgements and the committed offset holds in every reachable state |
| BriefMoney.StepKeepsDay | apps/brief/src/budget-ledger.ts:162-274 | each stage keeps the day's row between what is owed minus second releases and what is owed, and within the spend bound, whatever the other workers hold |
| BriefMoney.StepKeepsCharges | apps/brief/src/brief-orchestrator.ts:250-343 | each stage keeps one charge per request, tied to a stored brief, with the reserved amount or the settled cost |
| BriefMoney.StepKeepsOtherCharges | apps/brief/src/brief-orchestrator.ts:281-307 | no stage rewrites a charge except the settlement of that charge |
| BriefMoney.RunBalanced | apps/brief/src/brief-orchestrator.ts:196-343 | the money invariant (rows, charges, claims, books) holds in every reachable state |
| BriefResults.RowMatchesBooks | apps/brief/src/budget-ledger.ts:162-274 | over every schedule, a day's spend is never more than reservations held, final charges and stranded reservations together, and less by no more than what was released a second time |
| BriefExactness.Conservation | apps/brief/src/budget-ledger.ts:162-274 | when reservations come from Postgres, no duplicate's release and no increment throws after its effect, no rollback fails, and no worker crashes while it holds, each day's spend equals the reservations held plus the final charges, in every reachable state |
| BriefExactness.ConservedExactly | apps/brief/src/brief-orchestrator.ts:250-343 | over every schedule with reservations from Postgres, each day's spend equals reservations held plus final charges throughout if and only if no step releases a reservation a second time from a row that is not empty and no worker leaves an execution that still holds its reservation |
| BriefExactness.NextConserved | apps/brief/src/brief-orchestrator.ts:250-343 | each single step of the system keeps all days conserved if and only if it is neither such a release nor such a departure |
| BriefExactness.AccountedExactly | apps/brief/src/brief-orchestrator.ts:264-335 | counting reservations left behind as owed, the accounts hold throughout if and only if no such release happens |
| BriefExactness.RowMatchesClaims | apps/brief/src/budget-ledger.ts:162-274 | while nothing is left behind, a day's spend is never more than reservations held plus final charges, and less by no more than what was released a second time |
| BriefStranding.ThrewHolding | apps/brief/src/brief-orchestrator.ts:213-343 | a step ends thrown with its reservation neither rolled back nor charged if and only if the guarded increment took effect and threw, or a rollback failed before its effect: every other error rolls back |
| BriefStranding.StrandedExactly | apps/brief/src/brief-orchestrator.ts:313-343 | over every schedule with reservations from Postgres, no day ever has a reservation left behind if and only if no worker leaves an execution that threw while holding, or crashes while it holds |
| BriefStranding.NextStrands | apps/brief/src/brief-orchestrator.ts:313-343 | the same for each single step of the system |
| BriefStranding.FaultlessRunAbandonsNothing | apps/brief/src/brief-orchestrator.ts:313-343 | without such a throw and without a crash while holding, no execution is ever left with its reservation |
| BriefCounterexample.ReservationIsStranded | apps/brief/src/budget-ledger.ts:183-213 | the concrete schedule in which the increment takes effect, the call throws, and the row keeps an amount that nobody holds and nobody was charged |
| BriefExactness.StepLevel | apps/brief/src/budget-ledger.ts:162-274 | each stage keeps a level day level, except a repeated release from a row that is not empty |
| BriefResults.SecondRelease | apps/brief/src/brief-orchestrator.ts:313-335 | a second release of one reservation drops the row by the amount or to zero while as much is owed as before: the day stays conserved if and only if its row was empty |
| BriefCounterexample.MoneyIsLost | apps/brief/src/brief-orchestrator.ts:264-335 | the concrete schedule in which the release of a duplicate takes effect and throws, the catch block releases again, and a charged day ends with an empty row |
| BriefExactness.ClampIsUnreachable | apps/brief/src/budget-ledger.ts:242-262 | as long as nothing is lost, a first release and a settlement always find enough on the row, so the statement that sets the row to zero is not reached |
| BriefCharges.ChargedOnce | apps/brief/src/brief-orchestrator.ts:256-307 | however often a request is delivered it is charged at most once, only with a stored brief, and exactly the reserved amount or the cost as the column stores it in every run that loses nothing |
| BriefCharges.RunExact | apps/brief/src/budget-ledger.ts:223-274 | in every run that loses nothing all charges are exact |
| BriefCharges.BriefsAreCharged | apps/brief/src/result-store-facade.ts:50-70 | every stored brief has a charge if and only if no insert of a brief took effect and threw |
| BriefCharges.RunBooksOverruns | apps/brief/src/brief-orchestrator.ts:281-307 | what settlements added to a day is the sum by which its charges exceed their reservations |
| BriefStranding.ReservationHasOneFate | apps/brief/src/brief-orchestrator.ts:264-343 | a charged reservation stays charged and a released one released; a charged execution no longer touches the ledger except to settle, a released one adds no charge; an execution that returned holds nothing, and one that throws holds only in the two cases of `ThrewHolding` |
| BriefCharges.SpendBound | apps/brief/src/budget-ledger.ts:176-188 | a day's spend never exceeds the largest max(budget, amount) of its successful reservations, and so any cap on budgets and estimates, by more than its charges exceed their reservations, in every reachable state |
| BriefResults.PlainRunHasNoSecondRelease | apps/brief/src/brief-orchestrator.ts:264-335 | without a duplicate-branch release that throws after its effect, no reservation is released twice and every rollback still holds its reservation |
| BriefResults.RunWithin | apps/brief/src/budget-ledger.ts:176-188 | no reservation of a run has raised a day's peak above the cap on budgets and estimates |
| BriefOutcomes.HandlingDecides | apps/brief/src/failure-handling.ts:165-270 | an error is thrown if and only if it is neither non-retryable nor an LLM error, or is an LLM error of a charged request; a non-retryable error is answered with its own code, an LLM error with `timeout` or `llm_error`, retryable |
| BriefOutcomes.NewRequestIsAnswered | apps/brief/src/brief-orchestrator.ts:196-311 | a new request with room on its budget, all of whose calls succeed, ends with the generated brief stored and published and with its cost, as the column stores it, on the day's spend and as its one charge |
| BriefOutcomes.NewRequestIsRefused | apps/brief/src/brief-orchestrator.ts:225-248 | a new request without room on its budget is answered `budget_exceeded`, not retryable, and no day's spend changes |
| BriefOutcomes.FailedGeneration | apps/brief/src/brief-orchestrator.ts:313-343 | a generation that fails leaves the day's spend as it was; a non-retryable or LLM error is answered, any other thrown with nothing stored or published |
| BriefOutcomes.AnsweredBefore | apps/brief/src/brief-orchestrator.ts:166-194 | a request answered before is answered by its stored result, and nothing else changes |
| BriefOutcomes.UnresolvableIsAnswered | apps/brief/src/process.ts:135-205 | a request that can never be resolved is answered with the error's own code |
| BriefOutcomes.ResolvedAndNew | apps/brief/src/brief-orchestrator.ts:166-204 | a request without a stored result is estimated by its size and goes on to its budget |
| BriefOutcomes.Reserved | apps/brief/src/budget-ledger.ts:162-213 | with room on the day's budget Postgres adds the estimate and one request, and the execution holds it |
| BriefOutcomes.ReservedByRedis | apps/brief/src/budget-ledger.ts:304-362 | a reservation that Redis admits goes to generation and leaves the Postgres row alone |
| BriefOutcomes.Refused | apps/brief/src/budget-ledger.ts:176-213 | without room the execution is answered `budget_exceeded` and the spend of every day stays |
| BriefOutcomes.DeliveredAtEstimate | apps/brief/src/brief-orchestrator.ts:256-311 | a brief that costs what was reserved is stored, charged and published without a settlement |
| BriefOutcomes.DeliveredAndSettled | apps/brief/src/brief-orchestrator.ts:256-311 | any other brief is stored, charged, settled and published, and the day shows its cost in place of the reservation |
| BriefOutcomes.RolledBack | apps/brief/src/brief-orchestrator.ts:313-335 | a failed generation takes exactly the reserved amount off the row again |
| BriefOutcomes.Superseded | apps/brief/src/brief-orchestrator.ts:264-279 | a brief whose row another execution stored meanwhile gives its reservation back and publishes the stored row |
| BriefOutcomes.EmittedIsPublished | apps/brief/src/failure-handling.ts:57-89 | a failure emitted where no result is stored becomes the stored result and is published |
| BriefOutcomes.EmittedIsReplaced | apps/brief/src/failure-handling.ts:57-89 | a failure emitted where a result is stored publishes that result and changes nothing |
| BriefOutcomes.CallFails | apps/brief/src/brief-orchestrator.ts:157-360 | where a throwing call leads at each stage: out of the execution before the try block, to rollback while the reservation is held and to the handlers otherwise inside it, past a failing settlement |
| BriefOutcomes.EffectIsTaken | apps/brief/src/budget-ledger.ts:162-274 | a call that throws after its effect leaves the rows, messages and spend it would have left had it returned |
| BriefOutcomes.RequestIsTakenOver | packages/pipeline/src/transport/index.ts:405-480 | the batch loop starts an execution for a request; when it returns, its position is acknowledged and the next one due, and when it throws, the worker starts again at the request |
| BriefOutcomes.OtherMessages | packages/pipeline/src/transport/index.ts:405-480 | a message without a request is acknowledged at once, and at the end of the batch its position is committed |
| BriefOrchestrator.DefaultBriefOrchestrator.ProcessSummaryRequest | apps/brief/src/process.ts:135-205 | resolution, the non-retryable answer and `execute`, with other workers changing the shared state between any two calls, take exactly protocol steps from the start of an execution and end in its final stage, returning normally or throwing; a normal return has just published a result of the request, and when all calls succeed the return is normal |
| BriefOrchestrator.DefaultBriefOrchestrator.Execute | apps/brief/src/brief-orchestrator.ts:157-360 | the phases of `execute` follow the protocol to its final stage |
| BriefOrchestrator.DefaultBriefOrchestrator.TryBlock | apps/brief/src/brief-orchestrator.ts:250-312 | the try block ends returned, or in the catch with rollback due exactly when the budget decision is pending and no row was created; a brief it persisted is what generation returned, and is the last message of the topic when it is done |
| BriefOrchestrator.DefaultBriefOrchestrator.Authorize | apps/brief/src/budget-ledger.ts:304-362 | a reservation is authorised, refused, or throws, and leaves the protocol generating, answering `budget_exceeded`, or thrown |
| BriefOrchestrator.DefaultBriefOrchestrator.ReserveRow | apps/brief/src/budget-ledger.ts:162-213 | the guarded increment reserves or refuses; a throw after the increment leaves the reservation held |
| BriefOrchestrator.DefaultBriefOrchestrator.Rollback | apps/brief/src/budget-ledger.ts:364-373 | a rollback releases the reserved amount and hands the error to the handlers, or throws |
| BriefOrchestrator.DefaultBriefOrchestrator.HandleFailure | apps/brief/src/failure-handling.ts:165-270 | the handler chain answers, with the error's own code or with `timeout` or `llm_error`, a non-retryable error and an LLM error of a result that was not persisted, and rethrows the rest; when all later calls succeed it answers exactly those |
| BriefOrchestrator.DefaultBriefOrchestrator.EmitFailureResult | apps/brief/src/failure-handling.ts:57-89 | a failure is stored and published, or the row already stored is published instead; when all calls succeed it returns |
| BriefOrchestrator.DefaultBriefOrchestrator.RepublishPersistedResult | apps/brief/src/brief-orchestrator.ts:103-115 | the stored row is loaded and published, or the call ends in the error path of its caller |
| BriefOrchestrator.DefaultBriefOrchestrator.PersistResult | apps/brief/src/result-store-facade.ts:50-70 | the unique insert reports created or duplicate, or fails before or after its effect, and never rewrites a row |
| BriefOrchestrator.InterleavedRun | apps/brief/src/brief-orchestrator.ts:157-360 | among any actions of other workers, a worker takes exactly the steps of its execution in the step system |
| BriefOrchestrator.EveryRunIsMet | apps/brief/src/brief-orchestrator.ts:157-360 | every interleaving in which the worker does not crash is one that the methods run in |
| BriefOrchestrator.NormalReturnAnswers | apps/brief/src/brief-orchestrator.ts:157-360 | after any schedule, and among any actions of other workers, an execution that returns normally has its stored row published and holds no reservation |
| BudgetLedger.PostgresBudgetLedger.Reserve | apps/brief/src/budget-ledger.ts:162-213 | the day's row is created when missing; the amount and one request are added exactly when the day has room for the amount, or when nothing was spent and the amount exceeds the budget, or without a budget; the spend reported is the row's |
| BudgetLedger.PostgresBudgetLedger.UpsertDay | apps/brief/src/budget-ledger.ts:164-174 | the upsert gives the day a row and leaves one that is there alone |
| BudgetLedger.PostgresBudgetLedger.ReserveRow | apps/brief/src/budget-ledger.ts:176-188 | the guarded increment reserves exactly when the row is there and the day has that room, and then adds the amount and one request |
| BudgetLedger.PostgresBudgetLedger.Release | apps/brief/src/budget-ledger.ts:215-217 | on a row in whole units the spend becomes the difference, floored at zero and rounded to the column; no row, no effect |
| BudgetLedger.PostgresBudgetLedger.Settle | apps/brief/src/budget-ledger.ts:219-221 | on a row in whole units the spend becomes the sum with the difference, floored at zero and rounded to the column |
| BudgetLedger.PostgresBudgetLedger.UpdateSpent | apps/brief/src/budget-ledger.ts:223-274 | all four branches amount to this: the sum, floored at zero and rounded to the column, in the one row of the day, and the new spend reported |
| BudgetLedger.ReleaseUndoesReserve | apps/brief/src/budget-ledger.ts:162-217 | releasing what was reserved gives the spend back exactly and keeps the request count |
| BudgetLedger.ReleaseTakesOff | apps/brief/src/budget-ledger.ts:242-262 | a release takes its amount off the row or empties it |
| BudgetLedger.SettleReplacesReservation | apps/brief/src/budget-ledger.ts:223-274 | settling leaves the actual cost, rounded to the column, in place of the reserved amount, or empties a row too small for that |
| BudgetLedger.ReservationBound | apps/brief/src/budget-ledger.ts:176-188 | a reservation never lifts the spend above the larger of the budget and its own amount |
| BudgetLedger.StoredRounds | packages/db/prisma/schema.prisma:131-140 | the spend column keeps four decimals: a write is off by at most half a unit, and by nothing exactly when the amount is whole in it |
| BudgetLedger.FitsIs | apps/brief/src/budget-ledger.ts:176-188 | the guard holds exactly when the spend and the amount stay within the budget, or, for an amount beyond the budget, when nothing was spent; without a budget always |
| BudgetLedger.EstimateGrows | apps/brief/src/llm/generation-facade.ts:93-96 | the estimate starts at one cent and grows by 0.002 with each topic and 0.0005 with each evidence item, whole in the column |
| BudgetLedger.DateIs | apps/brief/src/brief-orchestrator.ts:99-101 | a moment belongs to the day whose midnight is the last one not after it |
| BudgetMirror.RunSound | apps/brief/src/budget-mirror.ts:51-111 | in every interleaving with calls that fail before or after their effect, Redis stays within the budget or where it was, the request count grows by one per mirror that took effect, the row never exceeds the highest mirrored total, and the second create is never reached |
| BudgetMirror.Confluence | apps/brief/src/budget-mirror.ts:74-99 | the row shows the maximum of its start and all mirrors that took effect throughout a run if and only if no write was made over a re-read that another mirror had outdated with a larger total |
| BudgetMirror.DrainedSpend | apps/brief/src/budget-mirror.ts:51-111 | once every mirror of such a run has taken effect, Postgres shows the larger of its start and the Redis counter, and one more request per reservation |
| BudgetMirror.AtomicConfluence | apps/brief/src/budget-mirror.ts:51-111 | with the re-read and the update as one step while earlier reads and creates race, every order shows the maximum throughout, and the drained row is the larger of its start and the Redis counter with one more request per mirror |
| BudgetMirror.AtomicCovers | apps/brief/src/budget-mirror.ts:74-99 | in such a run no write is made over an outdated re-read |
| BudgetMirror.LostUpdate | apps/brief/src/budget-mirror.ts:74-99 | the concrete race in which the row ends below the Redis counter although every mirror is done |
| BudgetMirror.MirrorAlone | apps/brief/src/budget-mirror.ts:51-111 | a mirror that runs alone and succeeds makes the row, or raises it to its total if that is larger, and counts one request |
| MessageBatch.Consumer.ProcessBatch | packages/pipeline/src/transport/index.ts:397-480 | acknowledged positions are exactly those the loop passed plus one handled message whose keep-alive threw (none when acknowledging is off); keep-alives, the commit and the three ways to end are fixed by the batch and its callbacks |
| MessageBatch.Reach | packages/pipeline/src/transport/index.ts:417-466 | the loop passes every message up to the first that is inactive, fails, or loses its keep-alive |
| MessageBatch.AcknowledgedPrefixIsHandled | packages/pipeline/src/transport/index.ts:417-466 | acknowledged messages are a prefix, each handled, and none lies behind the first failing message |
| MessageBatch.ReachIs | packages/pipeline/src/transport/index.ts:417-466 | the loop gets through the whole batch if and only if the batch stays active, every message is handled and every keep-alive due succeeds; otherwise it ends at the first message where that is not so |
| CircuitBreaker.Breaker.constructor | packages/shared/src/runtime/circuit-breaker.ts:1-10 | a new breaker is the empty history |
| CircuitBreaker.Breaker.IsOpen | packages/shared/src/runtime/circuit-breaker.ts:11-17 | open exactly while the last opening of the history runs; the probe is all it adds to the history |
| CircuitBreaker.Breaker.TimeUntilClose | packages/shared/src/runtime/circuit-breaker.ts:23-25 | positive exactly when open, and then the time left |
| CircuitBreaker.Breaker.RecordSuccess | packages/shared/src/runtime/circuit-breaker.ts:27-31 | the fields are again those of the history with a success |
| CircuitBreaker.Breaker.RecordFailure | packages/shared/src/runtime/circuit-breaker.ts:33-50 | trips exactly when the failure meets the breaker half-open or is the threshold-th since the last reset |
| CircuitBreaker.ProbeKeeps | packages/shared/src/runtime/circuit-breaker.ts:11-17 | a probe resets and counts nothing; it makes the breaker half-open exactly when an opening has expired |
| CircuitBreaker.SuccessResets | packages/shared/src/runtime/circuit-breaker.ts:27-31 | a success clears count, opening and half-open |
| CircuitBreaker.FailureCounts | packages/shared/src/runtime/circuit-breaker.ts:33-50 | a failure either opens for the full period and clears the count, or adds one to it and changes nothing else |
| CircuitBreaker.FailuresStayBelowThreshold | packages/shared/src/runtime/circuit-breaker.ts:33-50 | after any history the failure count is below the threshold |
| CircuitBreaker.FewFailuresKeepClosed | packages/shared/src/runtime/circuit-breaker.ts:33-50 | fewer failures in a row than the threshold leave a closed breaker closed |
| CircuitBreaker.TripsAtThreshold | packages/shared/src/runtime/circuit-breaker.ts:33-50 | the failure that reaches the threshold opens it for the whole period |
| CircuitBreaker.TrialDecides | packages/shared/src/runtime/circuit-breaker.ts:11-50 | after a probe has seen the opening expired, one failure opens it again and a success closes it |
| CircuitBreaker.StaysOpenWhileItRuns | packages/shared/src/runtime/circuit-breaker.ts:11-25 | while an opening runs, no probe closes it or makes it half-open |
| PersistBatch.Archive.CreateMany | apps/persister/src/persist.ts:80-84 | the count is the number of rows the archive gained; stored rows stay |
| PersistBatch.Archive.Persist | apps/persister/src/persist.ts:61-96 | every attempted id has its row afterwards, inserted plus duplicates is attempted, and inserted is the growth of the archive |
| PersistBatch.InsertAllContents | apps/persister/src/persist.ts:80-84 | afterwards exactly the old and attempted ids have rows, old rows unchanged, new ones among the events |
| PersistBatch.GroupsPartition | apps/persister/src/persist.ts:18-31 | each group is the events of its source in their order, no two groups share a source, and every event is in one |
| PersistBatch.GroupsKeepEvents | apps/persister/src/persist.ts:18-31 | grouping loses, invents and duplicates no event |
| Persister.DurableBeforeCommit | apps/persister/src/process.ts:314-409 | over any run with stale batches, circuit pauses, partial writes, Redis failures and crashes, an event acknowledged or below the committed offset has its one row and its seen mark |
| Persister.RunConsistent | apps/persister/src/process.ts:314-409 | in every reachable state each stage of a batch has done the writes the next one relies on |
| Persister.OpenBreakerBlocksBatch | apps/persister/src/process.ts:145-173 | a batch that meets an open breaker writes, acknowledges and commits nothing and goes back to its start |
| Persister.WritingOk | apps/persister/src/process.ts:175-218 | writing group by group, a failure at any group sends the batch back to its start with nothing acknowledged or committed, and the breaker records it |
| Persister.MarkingOk | apps/persister/src/process.ts:232-260 | acknowledging follows only when every event of the batch has its row and its mark |
| PersisterProgress.BatchIsPersisted | apps/persister/src/process.ts:314-409 | an active batch under a breaker that is not open, all of whose calls succeed, has exactly its events stored and marked, all its positions acknowledged and its end committed, and the breaker has recorded the probe and, if there were events, one success |
| PersisterProgress.BatchIsDurable | apps/persister/src/process.ts:314-409 | after such a batch every event of it has its row and its seen mark, and nothing else was stored or marked |
| PersisterProgress.GateDecides | apps/persister/src/process.ts:145-173 | an active batch is turned back at the gate if and only if an opening of the breaker runs |
| PersisterProgress.GroupsAreWritten | apps/persister/src/process.ts:175-218 | the groups are inserted one by one, each adding exactly its ids |
| PersisterProgress.BatchIsFinished | packages/pipeline/src/transport/index.ts:405-480 | every position is acknowledged and then the end of the batch committed |
| TrendWindows.WindowStore.OnMessage | apps/trends/src/process.ts:95-140 | consuming an event has exactly the effect of the fold step, and reports a duplicate exactly when the dedup set held it |
| TrendWindows.WindowStore.Execute | apps/trends/src/redis.ts:11-55 | the script does nothing for a known id and otherwise applies the plans in order |
| TrendWindows.WindowStore.ExecutePlan | apps/trends/src/redis.ts:37-50 | one round of the script: story set, counter, evidence |
| TrendWindows.DedupRecordsKeys | apps/trends/src/redis.ts:20-25 | after any trace the dedup sets hold exactly the tracked (bucket, id) pairs |
| TrendWindows.ExactlyOnce | apps/trends/src/redis.ts:11-55 | any trace leaves the same dedup sets, counters, story sets and evidence as the trace with only first occurrences per dedup bucket and id |
| TrendWindows.SlotEffect | apps/trends/src/redis.ts:37-46 | seen from one bucket, a script run adds a url once and its weight only if it was new, and the weight once per plan without a url |
| TrendWindows.PlansCount | apps/trends/src/redis.ts:154-186 | an event plans a bucket of a configured window as often as it names the topic, and no other bucket |
| TrendWindows.QuarterInHour | apps/trends/src/redis.ts:61-65 | the quarter of a moment is one of the four of its hour and of no other hour |
| TrendWindows.WindowNesting | apps/trends/src/redis.ts:37-46 | after any trace an hour's stories are the union of its quarters' and its counter is at most their sum |
| TrendWindows.TopKExactly | apps/trends/src/redis.ts:47-49 | over any trace, a topic's evidence is the K greatest of the last scores of all ids applied to it throughout, by score and then id, if and only if no applied event scores a listed member below an entry trimmed away |
| TrendWindows.StreamingTopK | apps/trends/src/redis.ts:47-49 | when every id is applied with one score only, a topic's evidence after any trace is exactly the K greatest of all events applied to it |
| TrendWindows.LastScoresAre | apps/trends/src/redis.ts:47-49 | the reference holds one entry per id, that of the last event that applies it |
| TrendWindows.EvidenceAfterPlans | apps/trends/src/redis.ts:35-51 | a script run adds the event to a topic's evidence once, however often the event names the topic |
| TrendWindows.RescoringLosesTheTop | apps/trends/src/redis.ts:11-55 | the concrete trace in which an id returns in the next dedup bucket with a lower score and stays above an entry trimmed away |
| TrendTracking.FreshEventCounts | apps/trends/src/process.ts:95-140 | an undated event, or one no older than the limit, that has a topic and whose id its dedup bucket does not know raises the counter of its bucket in each configured window for each topic it names by its weight, once for a url new there and as often as it names the topic without one, and changes no other counter or story set |
| TrendTracking.FreshEventIsEvidence | apps/trends/src/redis.ts:35-51 | such an event enters the evidence of each topic it names in each configured window, and no other |
| TrendTracking.DroppedChangesNothing | apps/trends/src/process.ts:95-110 | a stale event, one without topics, one already known and one without a window leave Redis as it is |
| TrendTracking.OncePerBucket | apps/trends/src/redis.ts:145-152 | with an hourly window an id counts once per hour, otherwise once per quarter of an hour |
| TrendTracking.DedupKeyIs | apps/trends/src/redis.ts:87-92 | ids are remembered per bucket of the longest configured window |
| TrendTracking.BucketStartIs | apps/trends/src/redis.ts:61-65 | a moment's bucket starts at the multiple of the window's length it lies in |
| TrendTracking.VolumeWeightIs | apps/trends/src/redis.ts:155-155 | the weight is the feed priority in fiftieths, rounded with halves up, and at least one |
| TrendTracking.EngagementScoreIs | apps/trends/src/redis.ts:153-154 | the score is the engagement times the feed priority in fiftieths, rounded with halves up |
| Evidence.AddTrimKeepsTopK | apps/trends/src/redis.ts:47-49 | adding one entry and trimming keeps the sorted set at the top K of everything given |
| Evidence.AddTrimExactly | apps/trends/src/redis.ts:47-49 | one more score keeps the sorted set at the top of the last scores if and only if it does not move a listed member below an entry trimmed away |
| Evidence.AddTrimTwice | apps/trends/src/redis.ts:47-49 | adding the same entry again changes nothing |
| Evidence.AddTrimIs | apps/trends/src/redis.ts:47-49 | an entry takes the place of any former score of its id, and an entry is left out only when the set is full of entries with a greater score, or with the same score and a greater id |
| Ordering.StringLessIs | apps/trends/src/redis.ts:47-49 | members of equal score rank by the first character in which they differ, a proper prefix first |
| HackerNews.Collector.RunPoll | apps/collector/src/index.ts:81-104 | a poll with its cursor, blocked flag and checkpoint write has exactly the effect of the fold over its candidates |
| HackerNews.SelectIs | apps/collector/src/adapters/hackernews.ts:124-130 | the selection is ascending, distinct, above the checkpoint, at most the maximum; an id above the checkpoint is left out only when the selection is full, and is larger than all it holds |
| HackerNews.PollCovers | apps/collector/src/adapters/hackernews.ts:141-160 | a poll never lowers the checkpoint, and keeps every listed id up to it handled exactly when the listing shows no new id the checkpoint has passed |
| HackerNews.NoSkippedStory | apps/collector/src/adapters/hackernews.ts:262-313 | over any polls with failing fetches, failing ingestion, shutdowns and cleanups whose listings keep what lies above the checkpoint, every listed id up to the stored checkpoint was handled if and only if no listing first showed an id the checkpoint had passed |
| HackerNews.LateStoryIsSkipped | apps/collector/src/adapters/hackernews.ts:124-130 | the concrete pair of listings whose late story no continuation of polls handles |
| HackerNews.SkippedForGood | apps/collector/src/adapters/hackernews.ts:124-130 | a story the checkpoint has passed unhandled stays unhandled in every continuation |
| HackerNews.NotPublishedTwice | apps/collector/src/ingestion-pipeline.ts:213-228 | an event is published twice only if a publication was not followed by its seen mark or the mark was cleaned up |
| HackerNews.StoryPublishesOnce | apps/collector/src/ingestion-pipeline.ts:338-353 | one story keeps that bookkeeping, whatever meets it |
| HackerNews.QuietPoll | apps/collector/src/index.ts:81-104 | a poll without trouble publishes the unseen accepted stories in order, handles all but those whose fetch failed, and stores the checkpoint of the last record received: that record, or the story before the first failed fetch |
| HackerNews.PollAdvances | apps/collector/src/adapters/hackernews.ts:262-313 | a poll whose first story is received and ingested, without a failed fetch, stores a higher checkpoint |
| HackerNews.TroubleEndsPoll | apps/collector/src/ingestion-pipeline.ts:213-228 | an ingestion that throws ends the poll without a new checkpoint; a publication made before it stays |
| HackerNews.DeadPoll | apps/collector/src/index.ts:81-104 | a poll whose process dies keeps what its stories did and stores no checkpoint |
| Grounding.BuildTopicEvidenceScopes | apps/brief/src/grounding-enforcement.ts:29-45 | the map the loop builds, in the order of its keys, is the specified list of scopes, a repeated key keeping its place with its last value |
| Grounding.ScopesAre | apps/brief/src/grounding-enforcement.ts:29-45 | scopes have distinct keys, each is the scope of a topic, and every topic's key has one |
| Grounding.ResolveGroundedTopicScope | apps/brief/src/grounding-enforcement.ts:51-85 | the declared scope if it overlaps; otherwise a scope with overlap that no other beats on overlap or group and that beats all before it; none only without overlap |
| Grounding.MergeHighlightsByTopic | apps/brief/src/grounding-enforcement.ts:110-140 | the loop over an index by topic yields the specified merge, in the order of first occurrence |
| Grounding.MergeByTopicIs | apps/brief/src/grounding-enforcement.ts:110-140 | under a closed canonicaliser merged highlights have distinct topics and stay grounded |
| Grounding.MergeByTopicCarries | apps/brief/src/grounding-enforcement.ts:110-140 | stable citations are carried through the merge under their topic |
| Grounding.DedupeIs | apps/brief/src/grounding-enforcement.ts:29-45 | deduplication yields distinct canonical forms of exactly the given urls |
| Grounding.GroundedIs | apps/brief/src/grounding-enforcement.ts:155-188 | a highlight that is kept cites its own topic's evidence, at least once and nothing twice |
| Grounding.EnforcedIsGrounded | apps/brief/src/grounding-enforcement.ts:144-199 | every successful result, whatever was offered, has distinct topics and non-empty duplicate-free citations from the topic's own evidence if and only if the canonicaliser maps the canonical evidence of each topic into that topic's evidence |
| Grounding.UngroundedCitation | apps/brief/src/grounding-enforcement.ts:144-199 | where it does not, one highlight that cites a url of its own topic's evidence gets through ungrounded |
| Grounding.OwnEvidenceIsKept | apps/brief/src/grounding-enforcement.ts:144-199 | a highlight citing its own declared topic's evidence makes grounding succeed and keeps every such citation through the merge |
| GroundingOutcomes.GroundedExactly | apps/brief/src/grounding-enforcement.ts:155-188 | a highlight is kept if and only if one of its citations is evidence of some topic in canonical form; it then comes under the preferred topic, with its texts, citing exactly what is evidence of that topic |
| GroundingOutcomes.ResolvedIs | apps/brief/src/grounding-enforcement.ts:51-85 | the preferred topic is the declared one if it has any of the cited evidence; otherwise no topic has more, on a tie the requested group goes first, then the first topic |
| GroundingOutcomes.OverlapCounts | apps/brief/src/grounding-enforcement.ts:51-85 | the overlap is the number of citations that are evidence of the topic |
| GroundingOutcomes.EnforceDecides | apps/brief/src/grounding-enforcement.ts:144-199 | grounding fails for want of evidence if and only if no url of any topic has a canonical form, and otherwise succeeds if and only if some highlight is kept |
| GroundingOutcomes.MergeIs | apps/brief/src/grounding-enforcement.ts:110-140 | the merge has one highlight per topic, in order of first occurrence, with the merged texts of all its highlights field by field |
| GroundingOutcomes.LastScopeStays | apps/brief/src/grounding-enforcement.ts:29-45 | the evidence of a key is that of the last topic with the key |
| BriefGeneration.SuccessIsGrounded | apps/brief/src/llm/generation-facade.ts:687-766 | over every provider path, fallback and answer of the model, successful results are grounded if and only if the canonicaliser maps into a topic's evidence every url of it that is a canonical form of a canonical form |
| BriefGeneration.ClosedIsEnough | apps/brief/src/llm/generation-facade.ts:687-766 | a canonicaliser that is closed or stable on the evidence makes every successful result grounded |
| BriefGeneration.OfferedIsCanonical | apps/brief/src/llm/generation-facade.ts:465-484 | on every path what is offered to grounding cites canonical forms only |
| BriefGeneration.NothingCitable | apps/brief/src/llm/generation-facade.ts:687-766 | evidence of which no url is a canonical form of a canonical form makes every path fail |
| BriefGeneration.AnswerKeepsOwnEvidence | apps/brief/src/llm/generation-facade.ts:465-523 | under a stable canonicaliser an answer within the limit that cites its declared topic's evidence succeeds and keeps those citations under the topic |
| BriefGeneration.SuccessWithinBudget | apps/brief/src/llm/generation-facade.ts:218-252 | a successful result has a highlight, its notes passed their check, and outside query mode the topic budget is kept |
| BriefGeneration.FallbackIsCapped | apps/brief/src/llm/generation-facade.ts:231-252 | the rule-based fallback uses at least one topic when there is one and respects the topic budget |
| BriefGeneration.UnstableCitationEscapes | apps/brief/src/llm/generation-facade.ts:465-523 | evidence whose path ends in two slashes, a model that cites it with three: the HTTP path publishes a citation that is not among the evidence |
| GenerationOutcomes.HighlightLimitIs | apps/brief/src/llm/generation-facade.ts:218-229 | a positive topic budget limits the highlights except in query mode, and nothing else does |
| GenerationOutcomes.FallbackTopicsAre | apps/brief/src/llm/generation-facade.ts:231-252 | the fallback takes the first topics: at least one, within a positive preferred count and within the topic budget unless it is a query and not concise, and as many as these allow |
| GenerationOutcomes.InternalHighlightIs | apps/brief/src/llm/generation-facade.ts:365-379 | a rule-based highlight has the wording of its topic, each part in its field, and cites its first two picked evidence urls, or all evidence when these have no canonical form |
| GenerationOutcomes.InternalSucceeds | apps/brief/src/llm/generation-facade.ts:365-422 | with a stable canonicaliser and grounded notes the rule-based path succeeds as soon as one topic it takes can be cited, and keeps that topic with its own evidence |
| GenerationOutcomes.OneTopic | apps/brief/src/llm/generation-facade.ts:365-422 | the rule-based brief of one citable topic is its one highlight under its trimmed name |
| GenerationOutcomes.ModelFailures | apps/brief/src/llm/generation-facade.ts:687-766 | a model that fails or cannot be parsed ends in an LLM error, but for the Codex CLI without its artifact |
| GenerationOutcomes.CodexFallsBack | apps/brief/src/llm/generation-facade.ts:740-766 | the Codex CLI without its artifact falls back to rule-based highlights within the topic budget, and succeeds with a citable topic among them |
| GenerationOutcomes.AnswerFallsBack | apps/brief/src/llm/generation-facade.ts:465-490 | an answer of which no highlight can be grounded is replaced by rule-based highlights, no more than it offered, and succeeds with a citable topic among them |
| GenerationOutcomes.OneAnswer | apps/brief/src/llm/generation-facade.ts:465-523 | an answer of one highlight that cites evidence is published with its texts trimmed, each in its field |
| TopicGlob.Validate | apps/brief/src/topic-glob.ts:13-25 | a valid glob is trimmed, non-empty, at most 128 characters of the allowed alphabet |
| TopicGlob.ValidateIs | apps/brief/src/topic-glob.ts:13-25 | a glob is valid if and only if it has, trimmed, 1 to 128 characters, each an ASCII letter or digit or one of `.*?_-`; the error says whether it is empty, too long or has others |
| TopicGlob.CompileTopicGlob | apps/brief/src/topic-glob.ts:44-60 | the loop emits the anchored pattern of the trimmed glob, or the validation error |
| TopicGlob.PatternReadsBack | apps/brief/src/topic-glob.ts:44-60 | a reader of the pattern grammar gets back one term per character of the glob |
| TopicGlob.CompiledGlobIsCorrect | apps/brief/src/topic-glob.ts:44-60 | the emitted pattern accepts exactly the topics without line terminator that a direct glob matcher accepts, ignoring case |
| TopicGlob.LiteralGlob | apps/brief/src/topic-glob.ts:44-60 | without wildcards the direct matcher accepts exactly the topics that are the same up to the case of ASCII letters |
| TopicGlob.Wildcards | apps/brief/src/topic-glob.ts:44-60 | in the direct matcher a star stands for any stretch of the topic, a question mark for any one unit |
| TopicGlob.NormalizeTopicGlobs | apps/brief/src/topic-glob.ts:27-42 | the loop validates and deduplicates in order and fails with the first invalid glob |
| TopicGlob.NormalizedIs | apps/brief/src/topic-glob.ts:27-42 | normalisation succeeds exactly when every glob is valid, and holds each trimmed glob once |
| TopicGlob.NormalizedOrder | apps/brief/src/topic-glob.ts:27-42 | normalised globs come in the order in which they first occur |
| TopicGlob.MatcherSetIsUnion | apps/brief/src/topic-glob.ts:72-85 | a matcher set accepts the union of its globs, and everything on one line without globs |
| MatcherCache.LruCache.Resolve | apps/brief/src/query-mode-selection.ts:114-132 | every call returns `build(key)` and the cache again holds the last distinct keys of the history |
| MatcherCache.LruCache.Refresh | apps/brief/src/query-mode-selection.ts:114-123 | a hit moves its key to the end |
| MatcherCache.LruCache.Add | apps/brief/src/query-mode-selection.ts:125-143 | a miss joins at the end and pushes out the oldest entry when there are too many |
| MatcherCache.ByLastUseIs | apps/brief/src/query-mode-selection.ts:107-144 | the reference order holds exactly the keys of the history, once each, by last use |
| MatcherCache.UseMovesToEnd | apps/brief/src/query-mode-selection.ts:107-144 | one more use of any key changes the last n distinct keys exactly as the cache does |
| MatcherCache.HeldIffRecent | apps/brief/src/query-mode-selection.ts:107-144 | the cache holds a key if and only if it was used and fewer keys than fit were used after its last use |
| TopicRanking.AccumulateTopics | apps/brief/src/query-mode-selection.ts:453-492 | the loops over snapshots and metrics build the weighted sums of every topic, keys in first-occurrence order |
| TopicRanking.Weight | apps/brief/src/query-mode-selection.ts:364-368 | a weight is positive and at most one |
| RankingMeaning.WeightIs | apps/brief/src/query-mode-selection.ts:364-368 | the weight times one plus the age in hours is one; a snapshot from the future has weight one |
| RankingMeaning.RecentWeighsMore | apps/brief/src/query-mode-selection.ts:364-368 | of two snapshots from before the request the more recent one weighs more |
| RankingMeaning.RankingIs | apps/brief/src/query-mode-selection.ts:453-500 | the ranking has a topic if and only if a valid snapshot mentions it, once, with the recency-weighted averages of its score, volume and acceleration and the time of its latest mention |
| RankingMeaning.RankingOrder | apps/brief/src/query-mode-selection.ts:500-510 | the ranking goes by score, highest first, then by time, latest first, then by collation |
| TopicRanking.RankingIgnoresOrder | apps/brief/src/query-mode-selection.ts:453-510 | the ranking is the same for every order of the snapshots |
| TopicRanking.ScoreIsAverage | apps/brief/src/query-mode-selection.ts:453-510 | a ranked topic's score lies between its least and greatest score across the snapshots |
| TopicRanking.GroupCap | apps/brief/src/query-mode-selection.ts:412-451 | at most floor(max) groups are kept, none blank; a dropped group is outranked by every kept one and dropped only because the cap is reached |
| RankingMeaning.KeptGroupsAreBest | apps/brief/src/query-mode-selection.ts:412-451 | a group left out has a lower summed score than every kept one, or as much and an earlier latest time, or comes later in collation |
| TopicRanking.FilterKeepsRankOrder | apps/brief/src/query-mode-request-facade.ts:316-327 | the filter keeps exactly the ranked topics of kept groups, in rank order |
| TopicExtraction.ExtractTopics | packages/topics/src/topic-extraction.ts:441-493 | the loop, sort and cut yield the specified topics |
| TopicExtraction.ExtractionIgnoresOrder | packages/topics/src/topic-extraction.ts:483-492 | the same allowlist in any order yields the same topics in the same order |
| TopicExtraction.ExtractionIsTop | packages/topics/src/topic-extraction.ts:458-492 | only allowed, unmuted, matching topics in order; one left out is outranked by all extracted and left out only because the maximum is reached |
| TopicExtraction.ExtractionOrder | packages/topics/src/topic-extraction.ts:483-492 | what is extracted goes by priority, highest first, then by key, and a topic left out has no higher priority than any extracted one |
| Retag.Archive.Run | packages/ops-cli/src/commands/topics/retag.ts:205-300 | the paginated loop ends, counts exactly the visited rows, and rewrites exactly them (none in a dry run) |
| Retag.Archive.RunPage | packages/ops-cli/src/commands/topics/retag.ts:211-299 | one page is read, counted and rewritten, and the cursor is its last id |
| Retag.Tally | packages/ops-cli/src/commands/topics/retag.ts:244-272 | the nested conditions count each row under its one category |
| Retag.VisitedIs | packages/ops-cli/src/commands/topics/retag.ts:206-242 | the visited rows are the first matching rows in id order, each once; a matching row is left out only beyond the limit |
| Retag.RunRewrites | packages/ops-cli/src/commands/topics/retag.ts:147-300 | unless it is a dry run, the first rows of the given source, up to the limit, that lack topics or tags (or all, with `all`) get the topics of their content as topics and as tags; all others stay |
| Retag.CategorizeIs | packages/ops-cli/src/commands/topics/retag.ts:249-272 | a row counts as unchanged when both lists are the topics of its content, as synchronised when only its tags differ, and otherwise by having none before, none after, or others |
| Retag.RestOfScan | packages/ops-cli/src/commands/topics/retag.ts:215-233 | although earlier pages changed which rows match, the next page starts exactly after the last row seen |
| Retag.RowsAfterBoth | packages/ops-cli/src/commands/topics/retag.ts:283-299 | rewriting page after page is rewriting all their rows together |
| Retag.StatsAddUp | packages/ops-cli/src/commands/topics/retag.ts:244-272 | scanned is changed plus unchanged, changed is the sum of the four categories, and each counter counts its category |
| Retag.SecondRunChangesNothing | packages/ops-cli/src/commands/topics/retag.ts:205-300 | after an unlimited run another one with the same options finds every visited row unchanged and leaves the table as it is |

## Left out

Assumptions and simplifications:

- No expiry: Redis time-to-live and retention deletes are not steps; the seven-day cleanup of the collector's seen marks is one of `HackerNews`.
- BriefExactness.ConservedExactly: days on which Redis admitted a reservation are outside it, because the mirror is not awaited and the cache sync overwrites the Redis counter; what is claimed of Redis reservations is in BudgetMirror.
- BudgetLedger.PostgresBudgetLedger.UpdateSpent: the conditional decrement and the statement that empties a short row are two database calls in the code and one step here; `BriefExactness.ClampIsUnreachable` shows that the second is not made as long as nothing is lost, afterwards a concurrent increment between the two could be lost as well.
- BriefResults.RowMatchesBooks: counts reservations left behind as owed, and rests on that same single step when a release or settlement finds too little on the row; `BriefExactness.RowMatchesClaims` is the statement without leftovers.
- BriefMoney.RunBalanced: an invariant of states, so it does not say how an execution that threw came to hold its reservation; `BriefStranding.ThrewHolding` does.
- BriefOrchestrator.DefaultBriefOrchestrator.Authorize: that Redis admits a reservation is an answer to the call; the Redis counter and the mirror command it starts are modelled in BudgetMirror.
- BriefOrchestrator.DefaultBriefOrchestrator.PersistResult: the stored payload is the payload itself; parsing of stored rows and health metrics are left out.
- BriefOutcomes.NewRequestIsAnswered: the calls of one worker with none of another in between, and a reservation from Postgres; among other workers, `BriefOrchestrator.DefaultBriefOrchestrator.ProcessSummaryRequest` promises the normal return and its publication when all calls succeed.
- BudgetMirror.Confluence: one day and one fixed budget; the `budget_usd` column is not modelled. A command is a step system because its calls interleave with those of other commands, so no class stands for it.
- Persister.DurableBeforeCommit: the chain of batch steps is a step system because stale consumers overlap; the loops of the code behind the stages are `PersistBatch.Archive.Persist` and the shared batch loop. Lag rows and the heartbeats sent while a partition is paused are left out.
- PersisterProgress.BatchIsPersisted: the calls of one process with none of another in between.
- MessageBatch.Consumer.ProcessBatch: a progress interval that is not positive is refused when the strategy is built, here by a precondition. Keep-alives that handlers issue themselves are not counted.
- CircuitBreaker.Breaker.RecordFailure: the fields are tied to the history through `Valid`; the clock is an argument of each call and need not be monotone.
- TrendWindows.WindowStore.OnMessage: Redis keys are structured values instead of strings, so topics containing colons do not collide here; topic tracking before the script is an input. Engagement is an exact quotient, without the rounding of floating point.
- TrendTracking.FreshEventCounts: needs each window configured at most once.
- TrendWindows.WindowNesting: needs each of the two windows configured once.
- HackerNews.NoSkippedStory: assumes that a later listing still shows what an earlier one showed above the stored checkpoint; the ranked modes ("top", "best") are left out.
- HackerNews.Collector.RunPoll: one adapter; back-off, heartbeats, dead-letter contents and topic declaration are left out, and checkpoint strings are integers.
- Grounding.EnforcedIsGrounded: URL parsing is left out, the canonicaliser is a parameter. Narrative merging and topic keys are parameters.
- BriefGeneration.SuccessIsGrounded: the schema of the model's answer is its non-empty fields; its URL check is taken to pass whatever has a canonical form. Which two evidence items a rule-based highlight picks, and its wording, are parameters. The check of the notes is an outcome; their text, titles, token counts and cost fields are left out.
- GenerationOutcomes.InternalSucceeds: for a canonicaliser that maps the request's canonical evidence to itself, and a topic whose key is not repeated by a later one.
- TopicRanking.RankingIgnoresOrder: over reals; floating-point addition does depend on order. Collation is a strict total order given as a parameter, while `localeCompare` may equate different strings.
- TopicExtraction.ExtractionIgnoresOrder: the same assumption on collation; matchers and relevance rules are one predicate, and allowlist keys may repeat.
- TopicGlob.CompiledGlobIsCorrect: the reader covers the part of the grammar that the compiler emits; only ASCII letters have case, as patterns are ASCII.
- MatcherCache.LruCache.Resolve: the builder is deterministic; a maximum that is not positive is refused by the constructor of the code and excluded by a precondition here.
- Retag.Archive.Run: no concurrent writers; previews, the summary and flag parsing (which refuses a batch size of zero) are left out, and the code skips the update of a row that stays as it is, where the model writes the same values again.

Parts of the repository without a counterpart here:

- Evidence scoring and the choice of diverse evidence (evidence-scoring.ts and the selection strategies of query-mode-selection.ts): text heuristics over uninterpreted scores.
- The per-domain request limiter of the content fetcher and the merge of declared topics.
- Health metrics, logging, configuration, startup and shutdown, HTTP and Codex CLI transport, protobuf and JSON decoding.
