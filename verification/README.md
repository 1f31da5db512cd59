# Verified model of the radar services

A Dafny 4.11 model of the parts of the radar repository whose behaviour depends on order, time or two
implementations staying in step. `dafny verify dfyconfig.toml` checks it.

| files | what they model |
|---|---|
| `JobTable`, `JobProtocol` | the `worker_jobs` table, its single-statement updates, and the protocol of any number of producers and workers over it, as a state machine whose runs are arbitrary sequences of steps |
| `WorkerRefinement`, `WorkerFleet` | the proof that the worker loop below, with anything the others do between any two of its database statements, is a run of that protocol; and the same for any number of loops on one table, each with its own program counter, dying and starting again anywhere |
| `WorkerLoop`, `GenerationSteps` | one worker process: arriving jobs and task rows, claiming through Redis hints or the table, the four job handlers, the running table and the `is_running` flags, the main loop and its final block; the step list of a generation job and the in-memory service that keeps the same list |
| `HandlerResults` | what the handlers, the claim and the monitor of that worker leave behind, stated from the job and its output |
| `LoginRateLimiter`, `FailureGuard`, `GuardHistory` | the login limiter and the task circuit breaker, over runs with an integer clock; what the breaker answers, from the history of the task |
| `Rotation`, `ScrapeRun`, `AttemptReference` | the account and proxy pools with their blacklist, the attempt loop, how a sequence of runs drives the circuit breaker, and what the attempts of a run are |
| `SellerProfileCache`, `ItemAnalysisDispatcher`, `ProcessService` | the three asyncio objects: a class whose methods are the code between two awaits, and a step relation over the same state for all interleavings |
| `CacheHistory`, `DispatcherHistory`, `ServiceHistory` | what these three answer, from the steps of the run alone |
| `DeepCopy`, `ProfileObjects` | the recursive copy with its memo, on nested objects in a heap, why a shallow one would not do, and how the objects relate to the cache's references |
| `PriceHistory`, `PriceReference`, `DealScore` | price aggregation and the deal score, for both rounding rules and both sides, and what the numbers are about |
| `Text`, `Blacklist`, `SearchText`, `RuleReference` | blacklist rules, the patterns both sides build for a keyword, the text a record is searched in, and keyword rules; what rules and matches are, on the characters |
| `TenantAccess` | extending a tenant's access in both services |

Code that changes state step by step is a class or a method with loops, proved equal to a specification
function; the theorems are about those functions over all inputs, all runs or all reachable states. Clocks,
random draws, process exits, deliveries, loaders, savers and child output are parameters. A state machine
step that cannot be taken leaves the state alone, so every sequence of steps is a run.

## What the code does differently from what one might expect

- A Redis payload that is JSON but not an object, a `job_id` that cannot be converted, and an unreachable
  Redis raise outside the loop's own `try` and end the worker (worker_job_runner.py:332-361, 709-738).
- Publishing an event builds its Redis client outside `suppress` (worker_job_runner.py:93-137), so an invalid
  `REDIS_URL` raises. A start or stop that has done its work then ends failed, the child alive or gone as
  asked; a publication in the monitor ends the worker.
- The limiter reads the clock twice per failure. From two attempts on, an interval no longer than the window
  and the block counts at most 2m - 1 failures whatever the readings are, and `BoundHoldsIff` says exactly when
  at most 2m - 2. With one attempt, one failure is the most exactly in intervals that, with the greatest
  difference of two readings added, are no longer than the block.
- A blocked request is told whole seconds, rounded down and one at least. A retry after just that time is
  refused again exactly when more than a second, and no whole number of seconds, was left (`RefusedIff`).
- The clean-up inside the limiter's `evaluate` can change later answers, but only after a failure during
  which a window ends between the two readings; `CleanupMattersIff` says after which ones it does.
- The expiry of a cache entry is fixed when the loader returns, before the store, so the reload gap counts
  from the return. The lock in between is never found taken, because no critical section awaits; only the
  running time of the code separates the two.
- `join` of the dispatcher does not report a crash when the job's done-callback ran before every look at the
  task set, whether the job crashed before `join` was called or while it was waiting for others.
- A deletion while a start is in flight can move another process onto the id being started. The registration
  then overwrites that process, and nobody stops it any more, even if starts are serialised per task.
- `reindex_after_delete` does not move the manual ids; they drift unless all are below the deleted id.
- Extending a tenant that has no expiry gives it one: unlimited access ends. Go trims the status and rejects a
  duration out of range, Python does neither and clamps. A blank activation stamp would be kept by `COALESCE`
  and keep the workspace closed, but no statement of either service stores one.
- The Python deal score accepts a negative market average and then rises with the price. The bonus test is
  an absolute tolerance in Go and a relative one in Python.
- Go keeps one snapshot per item id as it stands, Python strips the id and skips blank ones.
- Go walks a map in no particular order when it collects the search text, so every keyword with a space
  matches some record on one request and not on the next.

## Assumptions

Worker ids are distinct and each has at most one live process. A single worker is the only writer of
`is_running` in `WorkerLoop`. Clocks never go backwards. The uniqueness of requests assumes that the check
and the INSERT are serialised, and the model shows what happens without that. Floating point is replaced by
exact reals.

## Model

| member | source | states |
|---|---|---|
| `JobProtocol.Exclusive` | services/radar-probe/tools/worker_job_runner.py:140-225 | in every interleaving of any number of workers, with SELECT and conditional UPDATE as separate steps and crashes and restarts anywhere, two workers handling the same job are the same worker, its name is on the row, and the row is not pending |
| `JobProtocol.ClaimsCounted` | services/radar-probe/tools/worker_job_runner.py:182-196 | the successful claims of a job are at most one more than the times stale-clearing returned it to pending, and exactly one more when it is not pending |
| `JobProtocol.OnlyTheOwnerWrites` | services/radar-probe/tools/worker_job_runner.py:228-295 | a step changes an existing row only as a claim of a pending row or on behalf of the worker named on the row |
| `JobProtocol.TerminalIsClosed` | services/radar-probe/tools/worker_job_runner.py:228-295 | once a row is completed or failed it stays in that set for every continuation of the run |
| `JobProtocol.CompletedMayBecomeFailed` | services/radar-probe/tools/worker_job_runner.py:569-590 | the status inside that set is not frozen: a run exists in which a handler that raises after storing "completed" gets its job rewritten to "failed" |
| `JobProtocol.CompletedChangesIff` | services/radar-probe/tools/worker_job_runner.py:569-590 | in every reachable state a step changes the status of a completed row exactly when it is the raise of a handler that has written its final status, and the status becomes "failed" |
| `JobProtocol.CrashRecovery` | services/radar-probe/tools/worker_job_runner.py:316-329 | after a crash and restart of its worker a job is pending exactly when it was still claimed; a running or finished row is left as it was, and no claimed row of that worker remains |
| `JobProtocol.StaleRowsReturn` | services/radar-probe/tools/worker_job_runner.py:316-329 | a worker that starts again makes exactly the rows still claimed in its name pending and nobody's, and touches no other |
| `JobProtocol.OrphanIsNeverRecovered` | services/radar-probe/tools/worker_job_runner.py:316-329 | a running row that nobody handles is never touched again by any continuation of the run |
| `JobProtocol.SerialRequestsAreUnique` | services/radar-control/internal/workerqueue/service.go:214-250 | if the check and the INSERT of a request are serialised per task and kind, every reachable table holds at most one pending-or-claimed row per (task, start) and per (task, stop), through claims, crashes and stale-clearing |
| `JobProtocol.InsertKeepsUniqueIff` | services/radar-control/internal/workerqueue/service.go:214-289 | an INSERT keeps that uniqueness exactly when no pending-or-claimed row of the same task and kind exists at that moment |
| `JobProtocol.UnserialisedRequestsClash` | services/radar-control/internal/workerqueue/service.go:214-250 | without serialisation two producers that both pass the check leave two live requests for the same task |
| `JobProtocol.RequestPassesIff` | services/radar-control/internal/workerqueue/service.go:214-250 | exactly which start and stop requests pass their check |
| `JobProtocol.InsertsIff` | services/radar-control/internal/workerqueue/service.go:159-250 | a passed request becomes a pending row under the next id, a keyed job does exactly when its key is new |
| `JobProtocol.KeysStayUnique` | services/radar-control/internal/workerqueue/service.go:97-107 | no run ever has two rows with one key |
| `WorkerLoop.Worker.MonitorFinished` | services/radar-probe/tools/worker_job_runner.py:462-481 | the new running table and flags are those of the specification: entries of dead children go and their flags are lowered; when the first publication raises, one dead child's flag is lowered, no entry leaves and the worker ends |
| `WorkerLoop.Worker.NextJob` | services/radar-probe/tools/worker_job_runner.py:332-361 | the claimed job, the row written, and whether the delivery ends the worker are those of the specification: a message whose row is not pending falls back to the lowest pending id |
| `WorkerLoop.Worker.HandleStart` | services/radar-probe/tools/worker_job_runner.py:484-503 | the world after a start job: an already running task is finished without a second launch, a disabled or missing one fails, a launch enters the table and raises the flag, a raising launch fails the job, and so does a publication that raises after a launch, which stays |
| `WorkerLoop.Worker.HandleStop` | services/radar-probe/tools/worker_job_runner.py:506-521 | the world after a stop job, for a child that exits, a signal that raises, a kill that times out, and a publication that raises after the final write |
| `WorkerLoop.Worker.HandleGenerate` | services/radar-probe/tools/worker_job_runner.py:524-620 | the row after a generation job is the one the specification gives for the whole output of the child process |
| `WorkerLoop.Worker.HandleReanalyze` | services/radar-probe/tools/worker_job_runner.py:623-706 | the row after a reanalysis job is the one the specification gives for the whole output of the child process |
| `WorkerLoop.Worker.RunLoop` | services/radar-probe/tools/worker_job_runner.py:709-738 | the loop ends in the state and with the outcomes that the specification gives for the list of inputs: arriving jobs and task rows, exits, deliveries and failing publications |
| `WorkerLoop.Worker.Shutdown` | services/radar-probe/tools/worker_job_runner.py:739-749 | the final block lowers the flag of every listed task, whatever the signals do |
| `WorkerLoop.MirrorOverRuns` | services/radar-probe/tools/worker_job_runner.py:462-521 | over every run of a lone worker, with arriving jobs, tasks that are created, enabled or disabled, spontaneous exits and raising handlers: a raised flag has an entry, a live child is listed under its task with the flag raised, and a task has at most one live child |
| `WorkerLoop.MirrorFromTheStart` | services/radar-probe/tools/worker_job_runner.py:709-738 | the same from a fresh worker on any table of jobs with no flag raised, over every run |
| `WorkerLoop.ShutdownClearsFlags` | services/radar-probe/tools/worker_job_runner.py:739-749 | after any run and the final block no flag is raised |
| `WorkerLoop.RoundProgress` | services/radar-probe/tools/worker_job_runner.py:332-361 | a round is idle exactly when nothing is pending after the arrivals, dies exactly on a fatal delivery or a publication that raises in the monitor, and otherwise brings one pending row to a terminal status and touches no other row, whatever the message says |
| `WorkerLoop.ClaimsAccount` | services/radar-probe/tools/worker_job_runner.py:709-738 | over every run with arrivals: the claimed ids are pairwise different, each was pending at the start or arrived, each ends terminal, what is pending at the end is exactly what was pending or arrived and was not claimed, and every other row is as it was |
| `WorkerLoop.Drains` | services/radar-probe/tools/worker_job_runner.py:709-738 | while nothing arrives, a lone worker facing n pending rows handles one in each of its first n rounds and is idle from then on, for every list of non-fatal deliveries; by ClaimsAccount they are n different rows and all end terminal |
| `WorkerLoop.MySqlClaimsAscend` | services/radar-probe/tools/worker_job_runner.py:140-167 | without Redis the ids claimed over a run strictly ascend, whatever arrives meanwhile |
| `WorkerLoop.MySqlServesInOrder` | services/radar-probe/tools/worker_job_runner.py:140-167 | without Redis a pending job is claimed within as many rounds as there are pending jobs up to it, whatever arrives meanwhile: nothing that comes later overtakes it |
| `WorkerLoop.GeneratedCompletedIff` | services/radar-probe/tools/worker_job_runner.py:545-620 | a generation job ends completed exactly when a well-formed result line is the first decisive line of the output and neither the publication nor the wait after it raises; then it carries the announced task, its steps keep their keys, and all are completed if none had failed |
| `WorkerLoop.ReanalyzedCompletedIff` | services/radar-probe/tools/worker_job_runner.py:654-706 | a reanalysis ends completed under the same condition, with the announced task id, and leaves the steps alone |
| `WorkerLoop.StartStopEndTellsTruth` | services/radar-probe/tools/worker_job_runner.py:484-521 | a completed start leaves exactly one live child of the task, the one whose process id is on the row, with the flag raised; a completed stop leaves none, with the flag lowered; a failed one changes nothing but rows, except when the publication raised after the work was done |
| `HandlerResults.GenerationEnds` | services/radar-probe/tools/worker_job_runner.py:524-620 | the whole row that a generation job with a fresh step list leaves, for every output: completed exactly after a well-formed result; each step completed, running or pending by the step named last, with the text in force when it was named unless an earlier one was named since; after an error line or a failed exit the step named last is the failed one and carries the error or the last text; nothing else of the row changes |
| `HandlerResults.BlamedShape` | services/radar-probe/tools/worker_job_runner.py:593-614 | so after such a failure, once a step of the job was named, the steps before it are completed, it carries the blame, the later ones are pending without a text, and the keys stay |
| `HandlerResults.ReanalysisEnds` | services/radar-probe/tools/worker_job_runner.py:623-706 | the whole row that a reanalysis leaves: completed exactly when the payload is an object, the child starts and a well-formed result decides; steps untouched |
| `HandlerResults.StartEnds` | services/radar-probe/tools/worker_job_runner.py:484-503 | a child is launched exactly when the task exists, is enabled, has no live child and the launch goes through; the job is completed exactly when one was found, or launched and published; entries, flags and the rest of the row accordingly |
| `HandlerResults.StopEnds` | services/radar-probe/tools/worker_job_runner.py:506-521 | the child of the task, and no other, ends with its entry unless the signal or the kill fails; the job is completed exactly then and when the publication does not raise; no process id stays on the row |
| `HandlerResults.TakesTheAskedFor` | services/radar-probe/tools/worker_job_runner.py:140-225 | a round claims the pending row whose id the message names, else the one whose key it names, else the lowest pending one |
| `HandlerResults.TakenIsClaimed` | services/radar-probe/tools/worker_job_runner.py:182-196 | the claimed row gets the status and the name of the worker, every other row stays |
| `HandlerResults.MonitorIs` | services/radar-probe/tools/worker_job_runner.py:462-481 | exactly the entries whose child is gone leave, and exactly their flags are lowered |
| `HandlerResults.DiesExactly` | services/radar-probe/tools/worker_job_runner.py:332-361 | a round ends the worker exactly on a payload that is no object, an id that is no number, an unreachable Redis, or a dead child whose events cannot be published |
| `HandlerResults.CutIs` | services/radar-probe/tools/worker_job_runner.py:462-479 | in the last case one dead child has lost its flag and no entry has left |
| `WorkerRefinement.ScriptIsHandler` | services/radar-probe/tools/worker_job_runner.py:484-706 | each of the four handlers, written as its sequence of database statements, leaves the table that the handler specified for the lone worker leaves |
| `WorkerRefinement.PerformFollows` | services/radar-probe/tools/worker_job_runner.py:228-295 | performing any such sequence on the shared table, and so any beginning of it, with anything the other workers and producers do between any two statements, follows the protocol and ends in the phase that the statements executed say |
| `WorkerRefinement.LoopFollows` | services/radar-probe/tools/worker_job_runner.py:709-738 | every run of the worker loop on the shared table, with arbitrary steps of all others between its SELECT and its UPDATE and between any two statements of a handler, is a run of the N-worker protocol from the matching state; a lost claim race is included |
| `WorkerRefinement.JobEndsAsAlone` | services/radar-probe/tools/worker_job_runner.py:140-225 | a job handled among other workers, from any reachable state of the protocol, ends with the row that the lone handler gives from the row as it was claimed |
| `WorkerRefinement.AloneIsRound` | services/radar-probe/tools/worker_job_runner.py:709-738 | with nobody in between, a round on the shared table is a round of the lone worker |
| `WorkerFleet.FleetFollows` | services/radar-probe/tools/worker_job_runner.py:709-738 | every run of any number of worker loops on one table, interleaved before every SELECT, UPDATE and handler statement, with deaths and new starts at any point, is a run of the N-worker protocol with every worker in the phase its program counter says |
| `WorkerFleet.LoopsExclude` | services/radar-probe/tools/worker_job_runner.py:140-225 | so in no such run do two loops work on one job, and the row of a job that is worked on carries the name of its worker and is not pending |
| `WorkerFleet.LoopsWriteTheirOwn` | services/radar-probe/tools/worker_job_runner.py:228-295 | and every move of such a run changes an existing row only as the claim of a pending row, or by the worker named on it, in its handler or at its next start |
| `WorkerFleet.RoundAlone` | services/radar-probe/tools/worker_job_runner.py:709-738 | the statements of a round that nobody interrupts do what the round of the lone worker does, to the table, the worker and the outcome |
| `GenerationSteps.ApplyStepProgress` | services/radar-probe/tools/worker_job_runner.py:373-390 | the loop over the copied list yields the specified list |
| `GenerationSteps.FinalizeSteps` | services/radar-probe/tools/worker_job_runner.py:393-406 | the loop over the copied list yields the specified final list, for both final statuses |
| `GenerationSteps.TaskGenerationService.Advance` | services/radar-probe/src/services/task_generation_service.py:69-87 | the job row after an event, and an unknown job or step as an error that changes nothing |
| `GenerationSteps.TaskGenerationService.Complete` | services/radar-probe/src/services/task_generation_service.py:89-100 | the job row after a successful end |
| `GenerationSteps.TaskGenerationService.Fail` | services/radar-probe/src/services/task_generation_service.py:102-120 | the job row after a failed end, with the blamed step |
| `GenerationSteps.ProgressShape` | services/radar-probe/tools/worker_job_runner.py:373-390 | from an all-pending list any sequence of known events leaves completed* running pending*, the running step being the last one named and carrying its text, and pending steps with empty texts |
| `GenerationSteps.TwinsAgreeIff` | services/radar-probe/tools/worker_job_runner.py:373-390 | the worker and the service rewrite a list alike exactly when the named step has not failed and no later pending step carries a text |
| `GenerationSteps.TwinsAgreeOverRuns` | services/radar-probe/src/services/task_generation_service.py:69-87 | from a fresh job both hold the same list after every sequence of known events |
| `GenerationSteps.EndShape` | services/radar-probe/tools/worker_job_runner.py:393-406 | a successful end leaves every step completed; a failed end leaves completed* failed pending*, and the service, which blames its current step, agrees |
| `GenerationSteps.FailMarksOne` | services/radar-probe/src/services/task_generation_service.py:102-120 | a failed end marks exactly one step: the first of the given name, or of the current one; an empty name is none |
| `LoginRateLimiter.RateLimiter.Evaluate` | services/radar-probe/src/services/login_rate_limiter.py:47-56 | the answer and the whole new map, including the lazy clearing |
| `LoginRateLimiter.RateLimiter.RecordFailure` | services/radar-probe/src/services/login_rate_limiter.py:58-76 | the answer and the whole new map, with the two clock readings of the code kept apart |
| `LoginRateLimiter.FailuresBounded` | services/radar-probe/src/services/login_rate_limiter.py:36-76 | without a success for the key, an interval no longer than window and block counts at most max(m, 2m - 2) failures, whatever happens to other keys, if with the greatest difference of two readings it is no longer than the block, or one tick longer from three attempts on; with one attempt the window plays no part |
| `LoginRateLimiter.FailuresBoundedAlways` | services/radar-probe/src/services/login_rate_limiter.py:36-76 | from two attempts on every interval no longer than window and block counts at most 2m - 1 failures, in every run without a success for the key and for every difference of readings |
| `LoginRateLimiter.BoundIsReached` | services/radar-probe/src/services/login_rate_limiter.py:58-76 | for every limit of at least two and every interval of two ticks or more, a run with equal readings reaches that bound |
| `LoginRateLimiter.BoundHoldsIff` | services/radar-probe/src/services/login_rate_limiter.py:58-76 | the runs of a new limiter keep the bound max(m, 2m - 2) in an interval exactly under the condition of FailuresBounded, or if from three attempts on it is a single tick; otherwise a run exceeds it |
| `LoginRateLimiter.CleanupIsInvisible` | services/radar-probe/src/services/login_rate_limiter.py:41-56 | over every run in which no failure finds the window open at its first reading and over at its second, the clearing done inside `evaluate` changes no answer, whatever the difference between the readings |
| `LoginRateLimiter.CleanupNeverMattersForOne` | services/radar-probe/src/services/login_rate_limiter.py:41-76 | with a limit of one attempt it changes no answer of any run |
| `LoginRateLimiter.CleanupMattersIff` | services/radar-probe/src/services/login_rate_limiter.py:41-76 | per failure: some continuation, with equal readings, is answered differently because of the clearing exactly when the window ends between the two readings, more than one attempt is allowed, and this failure reaches the limit or the readings are less than a window apart |
| `LoginRateLimiter.RefusedIff` | services/radar-probe/src/services/login_rate_limiter.py:36-56 | a request is refused exactly before the end of the block; at every whole second before the told time it is refused again, a second after it no more, and right at it exactly unless more than a second and no whole number of them was left |
| `LoginRateLimiter.FailureIsTold` | services/radar-probe/src/services/login_rate_limiter.py:58-76 | a failure is answered with the block it causes, which starts at its first reading; without one nothing blocks |
| `LoginRateLimiter.SuccessForgets` | services/radar-probe/src/services/login_rate_limiter.py:78-79 | after a success a key is answered as one never seen, whatever came before and whatever other keys do |
| `FailureGuard.Guard.ShouldSkipStart` | services/radar-probe/src/failure_guard.py:209-283 | the decision and the stored entry after it, other tasks unchanged |
| `FailureGuard.Guard.RecordFailure` | services/radar-probe/src/failure_guard.py:285-358 | the result and the whole new table |
| `FailureGuard.CountIsFailuresSinceReset` | services/radar-probe/src/failure_guard.py:285-358 | after any run the stored count is the number of failures since the last success or cookie reset |
| `FailureGuard.PauseAfterFailure` | services/radar-probe/src/failure_guard.py:209-358 | after a failure that pauses the task no start is admitted for the whole pause, short of a cookie change |
| `FailureGuard.FailuresPerPause` | services/radar-probe/src/failure_guard.py:201-358 | in a run where every recorded end follows an admitted start, an interval no longer than the pause and free of resets holds at most `threshold` failures, from any state |
| `FailureGuard.DisciplineMatters` | services/radar-probe/src/failure_guard.py:285-358 | without that discipline the bound fails |
| `FailureGuard.OneNoticePerDay` | services/radar-probe/src/failure_guard.py:209-358 | between two resets a notice is asked for at most once per calendar day by starts and failures together |
| `GuardHistory.PausesIff` | services/radar-probe/src/failure_guard.py:285-358 | after any history a failure pauses the task, for the whole pause, exactly when it is immediate or at least the threshold-th since the last reset; the circuit opens then exactly when the task was not paused |
| `GuardHistory.PausesAtMinimum` | services/radar-probe/src/failure_guard.py:297-352 | with a minimum of its own it pauses exactly from that many failures on; zero is no minimum |
| `GuardHistory.SkipsIff` | services/radar-probe/src/failure_guard.py:209-283 | a start is refused exactly during the pause of the last failure since the last reset, unless the cookie file is newer than the known one by more than a microsecond; end, count and reason are told |
| `GuardHistory.FewerAdmit` | services/radar-probe/src/failure_guard.py:209-358 | while fewer failures than the threshold are recorded, a start after a failure that is not immediate is admitted |
| `GuardHistory.ResetsIff` | services/radar-probe/src/failure_guard.py:201-358 | the history resets exactly with a success, a failure that finds a newer cookie file, and a start that finds one during a pause |
| `GuardHistory.NotifiesIff` | services/radar-probe/src/failure_guard.py:209-358 | a notice is asked for exactly by a refused start or a pausing failure, when none was on that day since the last reset |
| `Rotation.RotationPool.AvailableItems` | services/radar-probe/src/rotation.py:21-29 | expired entries leave the blacklist and the items left are those not on it, in order |
| `Rotation.RotationPool.PickRandom` | services/radar-probe/src/rotation.py:31-35 | the item drawn by the random number from the available ones, none when there is none |
| `Rotation.RotationPool.MarkBad` | services/radar-probe/src/rotation.py:37-43 | the item gets its reason and its value an expiry; no item, or a TTL of zero, blacklists nothing |
| `Rotation.PickedIsAvailable` | services/radar-probe/src/rotation.py:21-35 | a drawn value is in the pool and not blacklisted at that time, and none is drawn exactly when every value is |
| `Rotation.MarkedFor` | services/radar-probe/src/rotation.py:37-43 | a marked value cannot be drawn for exactly the time to live; without one, and for other values, marking changes nothing |
| `ScrapeRun.Scrape.SelectAccount` | services/radar-probe/src/scraper.py:534-549 | the selected account and the blacklist after a selection, for forced, disabled, per-task and on-failure selection |
| `ScrapeRun.Scrape.SelectProxy` | services/radar-probe/src/scraper.py:551-562 | the same for the proxy |
| `ScrapeRun.Scrape.RunAttempts` | services/radar-probe/src/scraper.py:1260-1317 | the attempt loop ends in the specified state and records a success in the guard exactly when its last attempt went through |
| `ScrapeRun.ScrapeTask` | services/radar-probe/src/scraper.py:1213-1325 | the guard after a whole run is the guard after the events the run reports, other tasks unchanged |
| `ScrapeRun.ReportsExactlyOnce` | services/radar-probe/src/scraper.py:1260-1320 | an admitted run, whose login and risk-control errors carry a text as all those raised do, reports exactly one result, a success exactly when its last attempt went through |
| `ScrapeRun.AccountsInTurn` | services/radar-probe/src/scraper.py:1260-1269 | with rotation on failure inside one positive TTL the first min(attempts, distinct accounts) attempts use pairwise different accounts and every later one repeats the last |
| `ScrapeRun.NoTtlDrawsFreely` | services/radar-probe/src/rotation.py:37-43 | with a TTL of zero every attempt draws from the whole pool, so a failed account may come again at once |
| `ScrapeRun.RunsAreDisciplined` | services/radar-probe/src/scraper.py:1232-1320 | any sequence of runs records an end only for an admitted run |
| `ScrapeRun.FailedRunsPerPause` | services/radar-probe/src/scraper.py:1232-1320 | so an interval no longer than the pause and free of resets holds at most `threshold` failed runs, however many attempts each makes |
| `ScrapeRun.GuardCountsRuns` | services/radar-probe/src/scraper.py:1260-1320 | the guard sees one failure for every admitted run that failed, not one per attempt |
| `ScrapeRun.LackingPausesAtOnce` | services/radar-probe/src/scraper.py:122-144 | an admitted run with no account left to try with, or no proxy when it needs one, pauses the task at once, whatever threshold and count |
| `AttemptReference.AttemptsAre` | services/radar-probe/src/scraper.py:1260-1317 | a run makes no attempt exactly when it has no account, or no proxy that it needs, to begin with, and says which; otherwise attempts follow each other up to the limit until one goes through or meets a login or risk-control error, and the last gives items and error text |
| `AttemptReference.OneAccount` | services/radar-probe/src/scraper.py:534-549 | without rotation on failure every attempt uses the first account: the given one, the root file, or one drawn from the pool |
| `AttemptReference.GivenAccount` | services/radar-probe/src/scraper.py:534-549 | a given account is used by every attempt, with or without rotation |
| `AttemptReference.OneProxy` | services/radar-probe/src/scraper.py:551-562 | without rotation on failure every attempt uses the first proxy, and none when proxies are off |
| `AttemptReference.SelectionIs` | services/radar-probe/src/scraper.py:534-549 | one selection of an account in each mode, drawn ones from the pool and not listed at that time |
| `AttemptReference.ProxySelectionIs` | services/radar-probe/src/scraper.py:551-562 | the same for a proxy |
| `AttemptReference.FailureIs` | services/radar-probe/src/scraper.py:122-144 | a failed run is reported with the cookie file of its last attempt, with none when it made none, and as immediate exactly when the shortened reason names a missing account or proxy |
| `AttemptReference.ShortReasonIs` | services/radar-probe/src/scraper.py:113-119 | a reason is read as one line and cut to 497 characters and an ellipsis beyond 500 |
| `AttemptReference.NextProxyIs` | services/radar-probe/src/scraper.py:1260-1270 | with rotation on failure the failed proxy is listed for the time to live and one that is not listed is taken, or the old one when all are |
| `SellerProfileCache.Cache.GetEntryValue` | services/radar-probe/src/services/seller_profile_cache.py:40-47 | a clone of an unexpired entry, or the removal of an expired one |
| `SellerProfileCache.Cache.BeginGet` | services/radar-probe/src/services/seller_profile_cache.py:49-56 | the whole state after the first critical section: an answer, a joined load or a new one |
| `SellerProfileCache.Cache.LoaderReturned` | services/radar-probe/src/services/seller_profile_cache.py:60-63 | the clone and the expiry fixed when the loader returns |
| `SellerProfileCache.Cache.StoreEntry` | services/radar-probe/src/services/seller_profile_cache.py:64-65 | the whole state after the store |
| `SellerProfileCache.Cache.PopInflight` | services/radar-probe/src/services/seller_profile_cache.py:67-69 | the load leaves the in-flight table whether it stored or failed |
| `SellerProfileCache.Cache.EndGet` | services/radar-probe/src/services/seller_profile_cache.py:57-58 | the answer of a waiting caller: a clone, or the error |
| `SellerProfileCache.SingleFlight` | services/radar-probe/src/services/seller_profile_cache.py:49-69 | over all interleavings at most one load per seller is under way |
| `SellerProfileCache.ReloadGap` | services/radar-probe/src/services/seller_profile_cache.py:40-65 | a new load starts exactly when there is neither a fresh entry nor a load in flight, and then more than the TTL after the last stored load returned from its loader; an answer at once is never older than the TTL |
| `SellerProfileCache.GapAfterStoreIff` | services/radar-probe/src/services/seller_profile_cache.py:62-65 | measured from the store instead, the gap holds in a reachable state exactly when no time passed between the return and the store or that much has already passed |
| `SellerProfileCache.StoreMayBeLate` | services/radar-probe/src/services/seller_profile_cache.py:60-69 | for every amount of running time between the return and the store there is such a reachable state |
| `SellerProfileCache.AnswersAreCopies` | services/radar-probe/src/services/seller_profile_cache.py:37-69 | every answer is a fresh object, known to no one else, equal to the result of some completed load of that seller |
| `SellerProfileCache.MutationIsPrivate` | services/radar-probe/src/services/seller_profile_cache.py:37-47 | a caller that changes an object it holds changes neither a cache entry nor the result of a load |
| `CacheHistory.ResumeTellsTheLoad` | services/radar-probe/src/services/seller_profile_cache.py:57-69 | in every run a caller whose load is over is answered when it resumes: with the error exactly when the loader of that very load raised, and otherwise with its own copy of what that loader returned |
| `CacheHistory.CallIsAnswered` | services/radar-probe/src/services/seller_profile_cache.py:40-56 | in every run a call is answered at once with a copy of what the load stored last returned, exactly while no more than the TTL has passed since that return; else it waits for the one load of its seller under way, a new one exactly when there was none; an expired entry is gone |
| `CacheHistory.LoadsEnd` | services/radar-probe/src/services/seller_profile_cache.py:60-69 | a load whose loader raised leaves flight without an entry; one whose loader returned is stored, expires the TTL after the return, and leaves flight |
| `CacheHistory.LoaderKeepsItsObject` | services/radar-probe/src/services/seller_profile_cache.py:60-63 | what the loader does later to the object it returned changes nothing in the load |
| `DeepCopy.Memory.Clone` | services/radar-probe/src/services/seller_profile_cache.py:37-38 | the recursive copy with its memo: it reads as the same tree, lies wholly in new objects, has one copy for each original with the children copied alike, and leaves the old heap as it was |
| `DeepCopy.SharedAlike` | services/radar-probe/src/services/seller_profile_cache.py:37-38 | inside the copy an object is shared in two places exactly where the original shares it |
| `DeepCopy.CopiesAreSeparate` | services/radar-probe/src/services/seller_profile_cache.py:37-38 | no write to any object of such a copy, at any depth, is seen through the original, nor the other way round |
| `DeepCopy.ShallowIsSeparateIff` | services/radar-probe/src/services/seller_profile_cache.py:37-38 | a shallow copy is as separate as that, below its root, exactly when the value has nothing nested |
| `ProfileObjects.HandOutIsCopy` | services/radar-probe/src/services/seller_profile_cache.py:40-58 | a deep copy of an object of the cache is what a step hands to a caller: the new reference reads as the old one, and all objects stay apart |
| `ProfileObjects.WriteIsMutate` | services/radar-probe/src/services/seller_profile_cache.py:37-47 | a write at any depth of an object a caller holds, which links in no part of another, is a mutation of that reference |
| `ProfileObjects.WritesStayOutside` | services/radar-probe/src/services/seller_profile_cache.py:37-69 | in every reachable state no write at any depth of an object outside the cache is seen through an entry or the result of a load |
| `ItemAnalysisDispatcher.Dispatcher.SubmitJob` | services/radar-probe/src/services/item_analysis_dispatcher.py:60-63 | the state after a submission |
| `ItemAnalysisDispatcher.Dispatcher.Acquire` | services/radar-probe/src/services/item_analysis_dispatcher.py:69-71 | a job enters exactly when a permit is left |
| `ItemAnalysisDispatcher.Dispatcher.AfterSaver` | services/radar-probe/src/services/item_analysis_dispatcher.py:73-80 | the count, the notifier and the permit after the saver has answered |
| `ItemAnalysisDispatcher.Dispatcher.JoinTurn` | services/radar-probe/src/services/item_analysis_dispatcher.py:65-67 | one turn of the loop in `join` |
| `ItemAnalysisDispatcher.BoundedConcurrency` | services/radar-probe/src/services/item_analysis_dispatcher.py:69-80 | over all interleavings at most max(1, concurrency) jobs are past the semaphore, saver and notifier are called at most once per job, and the counter is the number of savers that returned true |
| `ItemAnalysisDispatcher.JoinReturnsWhenAllOver` | services/radar-probe/src/services/item_analysis_dispatcher.py:65-80 | when `join` returns every submitted job is over after exactly one saver call; all ran to their end exactly when no saver raised |
| `ItemAnalysisDispatcher.JoinReportsIff` | services/radar-probe/src/services/item_analysis_dispatcher.py:60-67 | over all interleavings, an ended `join` has raised exactly when some crashed job was still in the task set at one of its checks |
| `ItemAnalysisDispatcher.JoinMayMissACrash` | services/radar-probe/src/services/item_analysis_dispatcher.py:65-67 | a reachable run in which a job is submitted and crashes after `join` began and `join` returns normally |
| `ItemAnalysisDispatcher.SomebodyCanMove` | services/radar-probe/src/services/item_analysis_dispatcher.py:69-80 | while a job is not over some job can move: no deadlock |
| `ItemAnalysisDispatcher.Drains` | services/radar-probe/src/services/item_analysis_dispatcher.py:69-80 | from every reachable state a run without submissions and new calls of `join` changes something at most as often as work is left, and cannot be continued exactly when every job is over, every done-callback has run and no `join` waits |
| `DispatcherHistory.NoticesAreDue` | services/radar-probe/src/services/item_analysis_dispatcher.py:73-174 | over all interleavings a job that ran to its end was saved once and has exactly one notice if it is a keyword job with a hit, or skips the AI, or has a prompt and was recommended by the AI, and none otherwise, whatever the saver answered |
| `DispatcherHistory.CrashesAreRaises` | services/radar-probe/src/services/item_analysis_dispatcher.py:73-80 | a job has crashed exactly when its saver raised |
| `DispatcherHistory.CounterCountsSaved` | services/radar-probe/src/services/item_analysis_dispatcher.py:77-78 | the counter is the number of jobs for which the saver answered that it had saved |
| `ProcessService.Service.RegisterRuntime` | services/radar-probe/src/services/process_service.py:331-348 | the five maps, the manual ids and the watcher after a start |
| `ProcessService.Service.CleanupRuntime` | services/radar-probe/src/services/process_service.py:438-452 | nothing happens unless the id still maps to this very process |
| `ProcessService.Service.WatchProcessExit` | services/radar-probe/src/services/process_service.py:424-436 | the id is looked up by process identity and its runtime cleaned once |
| `ProcessService.Service.ReindexAfterDelete` | services/radar-probe/src/services/process_service.py:527-533 | all five maps lose the deleted id and shift the higher ones |
| `ProcessService.ReindexMapping` | services/radar-probe/src/services/process_service.py:535-542 | the loop in any order builds the shifted map |
| `ProcessService.MapsAligned` | services/radar-probe/src/services/process_service.py:275-286 | over all runs, however starts and deletions interleave, at every await point the five maps share one key set, each watcher watches the process of its id, no process is listed twice, and the direct clean-up branch is never taken |
| `ProcessService.StoppedOnceIff` | services/radar-probe/src/services/process_service.py:424-452 | over all runs, a process whose watcher has finished got exactly one on_stopped, under the id it went by, exactly when its task was not deleted and its id was not registered again while it was listed; otherwise it got none |
| `ProcessService.StoppedExactlyOnce` | services/radar-probe/src/services/process_service.py:424-452 | in every run whose registrations find their ids free, every process not dropped by a deletion gets exactly one on_stopped |
| `ProcessService.StopUsesTheCurrentId` | services/radar-probe/src/services/process_service.py:424-436 | over all runs, that call uses the id the process goes by when its watcher wakes, whatever was deleted before; a dropped or overwritten process gets none |
| `ProcessService.RunForgetsIff` | services/radar-probe/src/services/process_service.py:331-348 | a run forgets a process, neither listed nor stopped nor dropped, exactly when one of its registrations finds its id taken |
| `ProcessService.CarefulRunsRegisterFreeIds` | services/radar-probe/src/services/process_service.py:350-397 | with starts serialised per task and no deletion that moves a listed process onto an id being started, every registration finds its id free |
| `ProcessService.DeletionDuringStartForgets` | services/radar-probe/src/services/process_service.py:527-533 | serialised starts are not enough: a reachable run with one deletion during a start forgets a process |
| `ProcessService.DeletionKeepsManualInStepIff` | services/radar-probe/src/services/process_service.py:527-533 | the manual ids, which reindexing leaves alone, stay in step with the maps exactly when all of them are below the deleted id |
| `ServiceHistory.RuntimeIsItsOwn` | services/radar-probe/src/services/process_service.py:331-348 | over all runs, however starts and deletions interleave, the log file, the log handle and the name under an id are those its process was registered with |
| `ServiceHistory.ManualIdsAre` | services/radar-probe/src/services/process_service.py:331-348 | while no task is deleted and registrations find their ids free, the manual ids are exactly the listed ones whose process was started by hand |
| `ServiceHistory.StartsGoAhead` | services/radar-probe/src/services/process_service.py:350-397 | in every reachable state a start goes ahead at once if the id is free, is refused while its process lives, and goes ahead after the watcher of an exited one has cleaned up |
| `ServiceHistory.WatchersEnd` | services/radar-probe/src/services/process_service.py:424-436 | from every reachable state a watched process that exits and has its watcher woken is listed nowhere any more |
| `PriceHistory.DedupeLatest` | services/radar-control/internal/results/service.go:760-770 | the list holds each item once with its map entry, in any order |
| `PriceHistory.LatestIsLast` | services/radar-control/internal/results/service.go:760-770 | on the Go side every item id has an entry and it is the last snapshot of that id |
| `PriceHistory.DedupeLatestPython` | services/radar-probe/src/services/price_history_service.py:243-250 | the loop that strips the ids and skips blank ones builds the specified map |
| `PriceHistory.PythonLatestIsLast` | services/radar-probe/src/services/price_history_service.py:243-250 | on the Python side every id that is not blank has an entry, and it is the last snapshot whose stripped id is the same |
| `PriceHistory.DedupersAgreeIff` | services/radar-probe/src/services/price_history_service.py:243-250 | both sides build the same map exactly when no id is empty or has white space around it |
| `PriceHistory.SummarizePrices` | services/radar-control/internal/results/service.go:772-802 | the loop and the sort compute the summary of the price list |
| `PriceHistory.SummaryOrdered` | services/radar-probe/src/services/price_history_service.py:253-271 | under both rounding rules min <= median <= max and min <= avg <= max, and the count is the length |
| `PriceHistory.SummaryIgnoresMapOrder` | services/radar-control/internal/results/service.go:760-802 | the summary is the same for every order of the map, and counts the distinct items |
| `PriceHistory.BuildDailyTrend` | services/radar-control/internal/results/service.go:716-733 | one point per day, days strictly increasing, each the summary of that day's last snapshot per item |
| `PriceHistory.TrendCountsEveryPairOnce` | services/radar-control/internal/results/service.go:716-733 | the sample counts of the trend add up to the number of distinct (day, item) pairs |
| `PriceHistory.TrendIsUnique` | services/radar-probe/src/services/price_history_service.py:274-285 | two trends of the same snapshots are equal |
| `PriceHistory.BuildInsights` | services/radar-control/internal/results/service.go:659-702 | market, history and trend of the window; unique_items equals the sample count of the history and the number of distinct items |
| `PriceReference.WindowIs` | services/radar-control/internal/results/service.go:735-748 | the window is the part, in order, of exactly the snapshots that have no readable time or are less than window + 1 days of 24 hours older than the latest |
| `PriceReference.VisibleIs` | services/radar-control/internal/results/service.go:659-668 | the visible snapshots are, in order, exactly those of the given items |
| `PriceReference.OfRunIs` | services/radar-control/internal/results/service.go:750-758 | the snapshots of a run are, in order, exactly those with its id |
| `PriceReference.OfDayIs` | services/radar-control/internal/results/service.go:716-720 | the snapshots of a day are, in order, exactly those with its date |
| `PriceReference.LastIsSampled` | services/radar-control/internal/results/service.go:687-702 | the last visible snapshot is in its own window and run, so whenever anything is visible there is a market and a history sample |
| `PriceReference.SummaryIs` | services/radar-control/internal/results/service.go:772-802 | the summary of prices in ascending order: their number, mean, the mean of the one or two in the middle, first and last, to cents |
| `PriceReference.CentsIff` | services/radar-probe/src/services/price_history_service.py:253-271 | rounding gives the nearest cent, half way away from zero (Go) or the even one (Python) |
| `DealScore.ComputeScore` | services/radar-control/internal/results/service.go:804-857 | the running total with its truncations, bonus and clamp computes the score, which is always in 0..100 |
| `DealScore.ScoreIs` | services/radar-control/internal/results/service.go:839-857 | the score from its parts, without the functions that compute it: 50 points, 0.6 for every percent below the market average and 0.2 for every percent below the highest price, each without its fraction, 8 at the lowest price by the tolerance of the side, brought into 0..100 |
| `DealScore.CheaperScoresAlmostBetter` | services/radar-control/internal/results/service.go:839-857 | for p <= q the score of p is at least that of q minus 8, and less only when q has the bonus and p has not; the Python side needs a market average that is not negative |
| `DealScore.EightPointsCanBeLost` | services/radar-probe/src/services/price_history_service.py:338-347 | the eight points are really lost at a price just under the old minimum |
| `DealScore.AlmostAntitoneIff` | services/radar-probe/src/services/price_history_service.py:338-347 | scores fall with the price up to the bonus, over all histories and prices: always in Go, and in Python exactly when the market average is not negative |
| `DealScore.SidesDifferByTheBonus` | services/radar-control/internal/results/service.go:839-857 | for every average the Go score differs by at most the bonus from the Python score with a negative average taken as none, and not at all where the bonus tests agree |
| `DealScore.GoBonusIsStricter` | services/radar-control/internal/results/service.go:1149-1151 | for prices of at least one unit the Go tolerance implies the Python one |
| `Blacklist.NormalizeKeywords` | services/radar-control/internal/results/service.go:474-505 | the loops with the seen set compute the first occurrences of all entries |
| `Blacklist.FirstOccurrencesIff` | services/radar-probe/src/services/result_blacklist_service.py:18-43 | a list is that result exactly when it has the same members, each once, in the order of their first occurrence |
| `Blacklist.NormalizeIdempotent` | services/radar-probe/src/services/result_blacklist_service.py:18-43 | normalising a normalised list changes nothing, whichever side does it again |
| `Blacklist.SidesNormalizeAlike` | services/radar-control/internal/results/service.go:474-505 | the trimming that only Go does before splitting makes no difference to the result |
| `Blacklist.PatternsAgree` | services/radar-control/internal/results/service.go:572-573 | the Go pattern that consumes its boundaries and the Python pattern with lookaround accept the same texts for every keyword, namely those where the keyword stands without a token character beside it |
| `Blacklist.MatchBlacklist` | services/radar-probe/src/services/result_blacklist_service.py:67-76 | the matching rules, in order, of the normalised list |
| `Blacklist.SidesMatchAlike` | services/radar-control/internal/results/service.go:507-523 | given one matcher for `re:` rules, Go and Python report the same rules for every text |
| `Blacklist.MatchedAppend` | services/radar-control/internal/results/service.go:507-523 | matching a joined list gives the matches of both lists, each once |
| `Blacklist.HiddenUnion` | services/radar-control/internal/results/service.go:430-446 | the records hidden by rule under a ++ b are exactly those hidden under a or b, those shown are shown under both, and no expired or manually hidden record changes its reason |
| `RuleReference.RulesIff` | services/radar-probe/src/services/result_blacklist_service.py:18-43 | the rules of a list are exactly those that some longest stretch between line ends and commas stands for: `re:` and the trimmed pattern, or the normalised text; the same on both sides |
| `RuleReference.MatchIff` | services/radar-probe/src/services/result_blacklist_service.py:46-64 | a rule matches a text exactly when its pattern does, or when it occurs in it, one of letters, digits and spaces only where no letter or digit is beside it; the same on both sides |
| `RuleReference.MatchedIff` | services/radar-probe/src/services/result_blacklist_service.py:67-76 | exactly the rules of the normalised list that match a text are reported |
| `RuleReference.ReasonIs` | services/radar-control/internal/results/service.go:430-446 | expired hides before any other status of its own, that before a rule, and only active records are hidden by a rule |
| `RuleReference.NormalizedIs` | services/radar-probe/src/keyword_rule_engine.py:13-14 | normalised text is the lower-case text read character by character, white space left out and a single space put before a character after some |
| `RuleReference.RuleKeywordsIff` | services/radar-probe/src/keyword_rule_engine.py:49-58 | the keywords of a recommendation rule are its normalised lines that are not blank |
| `RuleReference.RuleHitsIff` | services/radar-probe/src/keyword_rule_engine.py:61-106 | a keyword hits exactly where it is found in the normalised text, one of letters, digits and spaces only where it stands by itself |
| `RuleReference.FragmentsIff` | services/radar-probe/src/keyword_rule_engine.py:17-34 | the fragments of a value are exactly its texts, trimmed and not empty, and its numbers and booleans, at any depth |
| `SearchText.CollectFragments` | services/radar-probe/src/keyword_rule_engine.py:17-34 | the recursive walk appends exactly the fragments of the value |
| `SearchText.WordIgnoresMapOrder` | services/radar-control/internal/results/service.go:529-574 | a plain keyword of one word matches a record or not whatever permutation its maps are walked in at every depth, and the same on both sides |
| `SearchText.PhraseDependsOnMapOrder` | services/radar-control/internal/results/service.go:537-551 | every normalised plain keyword with a space matches some record under one order and not under another |
| `SearchText.MapOrderIgnoredIff` | services/radar-control/internal/results/service.go:529-574 | so a normalised plain keyword matches the same records under all orders exactly when it is a single word |
| `SearchText.EvaluateRules` | services/radar-probe/src/keyword_rule_engine.py:72-106 | the hits and the recommendation of a keyword rule list |
| `SearchText.RulesAreAlternatives` | services/radar-probe/src/keyword_rule_engine.py:72-106 | two joined lists recommend exactly what one of them recommends, with the hits of both, each once |
| `TenantAccess.TenantStore.UpdateAccess` | services/radar-control/internal/tenants/service.go:227-323 | the outcome and the whole new table of the Go service |
| `TenantAccess.TenantStore.UpdateTenantAccess` | services/radar-probe/src/services/auth_service.py:547-621 | the outcome and the whole new table of the Python service |
| `TenantAccess.AcceptedIff` | services/radar-control/internal/tenants/service.go:227-255 | exactly which updates each service accepts, and which error is told first |
| `TenantAccess.ColumnsAfter` | services/radar-probe/src/services/auth_service.py:580-621 | each column after an accepted update: what is not given stays, with the effects of an extension and of lifting the activation |
| `TenantAccess.RedeemOpens` | services/radar-probe/src/services/auth_service.py:899-950 | a redeemed code opens a tenant for exactly its duration, of a minute at least, after any writes |
| `TenantAccess.AdminStaysOpen` | services/radar-probe/src/services/auth_service.py:131-163 | over any writes the platform's own tenant stays active and in no need of an activation |
| `TenantAccess.RegisteredIsClosed` | services/radar-probe/src/services/auth_service.py:305-315 | a registered tenant is closed until something opens it and has no AI, the platform's own is open and has |
| `TenantAccess.TwinsAgreeIff` | services/radar-probe/src/services/auth_service.py:547-621 | both make the same change and give the same errors exactly when the status is refused by both, or it is not padded and the duration is in 1..525600 |
| `TenantAccess.StampsAreReal` | services/radar-probe/src/services/auth_service.py:131-163 | whatever the two updates, redemptions, the bootstrap and the migration write, in whatever order, the activation stamp of a row is absent or a time and its expiry readable |
| `TenantAccess.ExtensionEnables` | services/radar-probe/src/services/auth_service.py:547-621 | on every row that any sequence of the services' own writes has produced, an extension accepted by either service opens the workspace up to the new expiry, for both readers, exactly when the update sets the status to active, or leaves it and the tenant needs an activation or was active |
| `TenantAccess.ExtensionNeverShortensIff` | services/radar-control/internal/tenants/service.go:271-303 | an extension takes no access away at any moment exactly when there was a readable expiry: without one access was unlimited |
| `TenantAccess.ExpiryIsLatestEnd` | services/radar-control/internal/tenants/service.go:271-303 | after any sequence of extensions the expiry is the latest of e0 + all m and, over j, t_j + m_j + ... + m_n |

## Left out

- `running` rows of a dead worker: the code never recovers them, and neither does the model (`OrphanIsNeverRecovered`).
- Order of Redis delivery: `RPush` with `brpop` takes the newest message first, so ascending order is stated for the MySQL path only.
- WorkerLoop.Worker.NextJob: its SELECT and UPDATE are one step, because the worker is alone there; the lost claim race is in `WorkerRefinement.LoopFollows` and `WorkerFleet.FleetFollows`.
- PriceHistory.BuildDailyTrend: trends and insights group by the id as it stands, as Go does; for the ids Python strips, `PriceHistory.DedupersAgreeIff` says when that is the same.
- The segment methods of `Dispatcher`, `Cache` and `Service` are straight-line code and only tie the class to the step named in their `ensures`: `SubmitJob`, `Acquire`, `CallSaver`, `AfterSaver`, `JoinTurn` to `Submit`, `Enter`, `Analyse`, `SaverReturns`, `JoinBegins` or `JoinWakes`; `BeginGet`, `LoaderReturned`, `StoreEntry`, `PopInflight`, `EndGet` to `Called`, `Returned`, `StoredResult`, `Left`, `Resumed`; `RegisterRuntime`, `WatchProcessExit`, `ReindexAfterDelete` to `Registered`, `Woken`, `AfterDelete`. What they do over runs is in the theorems.
- DeepCopy.Memory.Clone: a value that contains itself, which decoded JSON never does, is not copied; a text is copied where Python shares the immutable one.
- ScrapeRun.AccountsInTurn: states the rotation of accounts; proxies rotate by the same functions but no separate theorem is stated for them.
- ScrapeRun.ScrapeTask: the browser work of an attempt is an outcome given from outside, and exceptions that are not `Exception` (cancellation) are not modelled.
- FailureGuard.Guard.ShouldSkipStart: the texts of the decision, the time of the last failure and the write timestamps are left out.
- WorkerLoop.Worker.HandleGenerate: result JSON and the contents of published events are left out; lines of output arrive as parsed data.
- Blacklist.SidesMatchAlike: user-written `re:` patterns are one arbitrary predicate for both sides, so differences between the two regular-expression dialects are not covered.
- Blacklist.SidesNormalizeAlike: lower case and white space are ASCII; Unicode letters, the other Unicode spaces and the control characters that only one side counts as space are not covered.
- SearchText.WordIgnoresMapOrder: numbers and booleans come as printed text, so the two sides' number formats are not compared.
- PriceHistory.BuildInsights: the Python parameter for the current run's snapshots, which distinguishes none given from an empty list, is not part of this model.
- TenantAccess.ExpiryIsLatestEnd: times are integers; the formats and time zones of stored timestamps are reduced to readable, blank and unreadable, and the fractions of a second that Go drops from an expiry and Python keeps are not modelled.
- LoginRateLimiter.FailuresBounded: the clock never goes back; `datetime.now` can.
- `record_market_snapshots`, the chart fields of the item context, deal labels and the CSV and JSON output: they would only add easy members.
- SQL text, schema creation, connection handling and failures of the database inside a handler.
- Writes to `is_running` by anyone but the worker, two processes under one worker id, and asyncio cancellation.
- Notification clients, AI calls, prompt texts, the portal, websockets, sessions and settings.
- Agreement of the Go and Python log-name sanitisers: they differ on repeated underscores.
