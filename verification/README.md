# Coin listener: verified model

Coin listener watches blockchain addresses. A scheduler turns overdue addresses into durable scan jobs, any number of
workers claim them under leases, address lists are imported as tasks of many attempts, amounts are shown and compared
as decimal strings, and a browser page keeps a notification socket alive for its session. This project states what
those parts keep, under every interleaving of their statements and events, and proves it.

Every SQL statement, or transaction where the program opens one, is one atomic step on a monotone database clock. Tables
are sequences, and a row's id is its position. `FOR UPDATE SKIP LOCKED` may skip any set of rows. For each table there is
a function `Apply` over an operation datatype, a run `At(db, ops, k)`, and a class whose methods update the rows in
place and are proved equal to `Apply`; the lemmas about runs then speak of every sequence of operations.

| files | what they model |
|---|---|
| `ScanJobs`, `ScanJobEffects`, `ScanJobRuns`, `ScanJobStore` | the scan-job queue: statements, their effect column by column, what every run keeps, the tables updated in place |
| `ScanWorkers`, `ScanBudget` | the queue under its worker loop: memory and rows agree; the attempt budget |
| `Scheduler` | one scheduler pass as a loop of transactions amid other traffic |
| `AddressImports`, `AddressImportEffects`, `AddressImportRuns`, `AddressImportCounts`, `AddressImportFinish`, `AddressImportLocks`, `AddressImportStore` | address imports; finishing one is three interleavable statements |
| `ImportPlan`, `ImportPreview`, `Text` | request validation, the attempt plan, the browser's preview |
| `Digits`, `AmountDisplay`, `AmountThreshold`, `BtcTransfers` | exact arithmetic on digit strings and sums |
| `ProviderHealth` | circuit breaker and per-second request window |
| `AuthSession`, `Realtime`, `RealtimeSession` | session generations, the reconnecting socket, and both wired together |
| `UrlRedaction` | the redaction loop and its two redactors |

## Where the program does less than it seems to

- A manual retry copies the configured maximum into a reused row. When the maximum was lowered to attempts already
  used, the row is handed out once more than it then allows (`ScanBudget.LoweredMaximumOverdraws`).
  `ScanBudget.RetryKeepsBudgetExactly` gives the exact condition; with one constant maximum it always holds.
- Finishing an import decides by the row its own refresh returned. Whatever interleaves afterwards, the status is right if
  and only if that row shows a success or every row processed (`AddressImportFinish.FinishStatusExactly`); the counts left
  behind are exact if and only if the import was recounted after the last mark that settled one of its attempts
  (`AddressImportFinish.FinishCountsExactly`). `AddressImportFinish.StaleVerdict` is a run of two workers in which an
  import with a success ends as failed: the first loses its lock before it lists its attempts, finds none, and
  finishes while the second is still marking.
- When the reply to a scan-run insert is lost after its commit, the worker does not know the run. A claim that hands out or
  dead-letters the job still closes it (`ScanWorkers.ReclaimCloses`); a committed settling orphans it, running for good, if
  and only if the worker settles without knowing a run (`ScanWorkers.SettlingOrphansExactly`). Over whole runs that is
  the only way a scan run is orphaned (`ScanWorkers.OrphanedExactly`, with an input in `ScanWorkers.LostReplyOrphans`).
- The per-second request window counts by each caller's clock but expires by the store's. A limit is overrun if and only
  if more was asked than it allows and the key expired between two requests for it (`ProviderHealth.LimitMetExactly`). That
  cannot happen within half a second of skew (`ProviderHealth.WindowGrantsExactly`), and can with one
  millisecond more (`ProviderHealth.WiderSkewOverruns`).
- The EVM and TRON formatters print leading zeros they are given, the Bitcoin formatter does not.
  `AmountDisplay.FormattersAgreeExactly` says for which digit strings they agree, `AmountDisplay.LeadingZeroShows` gives
  one on which they do not.
- After a cancel a mark matches an attempt the cancel skipped, reports success and changes nothing
  (`AddressImportStore.Store.MarkSuccess`).

## Model

| member | source | states |
|---|---|---|
| ScanJobStore.Store.InsertScheduled | backend/crates/storage/src/scan_jobs.rs:17-27 | A row is returned if and only if the address had no active job; it is new, has used no attempt, and is due from the given time on; otherwise nothing changes |
| ScanJobStore.Store.InsertRetry | backend/crates/storage/src/scan_jobs.rs:29-46 | A retry is refused, and changes nothing, if and only if the scan run it names does not exist or the address's active job is processing; otherwise the new or reused waiting job is pending with the new maximum and due time and its used attempts are kept |
| ScanJobStore.Store.ClaimDue | backend/crates/storage/src/scan_jobs.rs:48-125 | Run part by part in place, the claim has the effect of the one statement on one snapshot; the row handed out is a least unskipped candidate, and there is one whenever an unskipped row is due |
| ScanJobStore.PickDue | backend/crates/storage/src/scan_jobs.rs:76-97 | The scan returns a candidate no other candidate precedes in (expired processing first, next attempt, creation) order, and nothing only when there is none |
| ScanJobStore.ClaimSteps | backend/crates/storage/src/scan_jobs.rs:48-125 | Dead-lettering, closing runs, picking, closing the reclaimed run and leasing, one after the other, equal the simultaneous effect on the snapshot |
| ScanJobStore.Store.Renew | backend/crates/storage/src/scan_jobs.rs:127-136 | Matches exactly the live owner's row, and then the lease runs for the new time |
| ScanJobStore.Store.MarkSucceeded | backend/crates/storage/src/scan_jobs.rs:138-152 | Takes effect exactly for the live owner; afterwards the row is terminal and the caller owns it no more |
| ScanJobStore.Store.MarkRetryable | backend/crates/storage/src/scan_jobs.rs:154-168 | Takes effect exactly for the live owner; afterwards the row waits, and is due if and only if its next attempt time has come |
| ScanJobStore.Store.MarkDeadLetter | backend/crates/storage/src/scan_jobs.rs:170-184 | Takes effect exactly for the live owner; afterwards the row is terminal and the caller owns it no more |
| ScanJobStore.Store.InsertScanRun | backend/crates/storage/src/scan_runs.rs:20-55 | A running scan run is inserted and linked exactly for the live owner of the job |
| ScanJobEffects.ScheduleInserts | backend/crates/storage/src/scan_jobs.rs:17-27 | For an address without an active job exactly one fresh job of that tenant, address and chain is appended, due from the given time; otherwise nothing changes |
| ScanJobEffects.RetryInserts | backend/crates/storage/src/scan_jobs.rs:29-46 | A retry of an existing run appends a fresh job of that tenant, address and chain for an idle address, naming the run, and appends none otherwise |
| ScanJobEffects.RetryReuses | backend/crates/storage/src/scan_jobs.rs:34-41 | The waiting job of the address gets the new schedule, maximum and run and loses its error, and nothing else of the table changes; a processing one is left alone |
| ScanJobEffects.ClaimPicksExactly | backend/crates/storage/src/scan_jobs.rs:76-97 | The row claimed is waiting and due, or in processing with an ended lease and an attempt left; expired attempts go first, then the earlier next attempt, then the older job; none is claimed only when there is none |
| ScanJobEffects.ClaimRows | backend/crates/storage/src/scan_jobs.rs:48-62 | Every row after a claim, column by column: leased to the worker with one attempt more, given up with its error kept or the given one, or as it was |
| ScanJobEffects.ClaimRuns | backend/crates/storage/src/scan_jobs.rs:63-110 | The running run of a row handed out or given up is failed now, with its error kept or the reason, and marked reclaimed; otherwise it stays |
| ScanJobEffects.LeaseDecides | backend/crates/storage/src/scan_jobs.rs:127-184 | A processing row is its holder's until the moment its lease ends and from then on may be reclaimed or given up: never both, never neither |
| ScanJobEffects.MarkEffect | backend/crates/storage/src/scan_jobs.rs:138-184 | What each mark writes to the row of a live holder, column by column; every other row and run stays |
| ScanJobEffects.MarkRefused | backend/crates/storage/src/scan_jobs.rs:138-184 | For anybody else, or with a scan run that does not exist, a mark changes nothing |
| ScanJobEffects.RenewEffect | backend/crates/storage/src/scan_jobs.rs:127-136 | A renewal moves lock time and lease end of the live holder's row and nothing else |
| ScanJobEffects.InsertRunEffect | backend/crates/storage/src/scan_runs.rs:20-55 | A live holder's scan run is appended as running, with its job and start, and becomes the job's latest; nobody else opens one |
| ScanJobRuns.ShapeAlways | backend/crates/storage/src/scan_jobs.rs:17-184 | In every reachable state an address has at most one active job, lock and lease fields are set exactly while processing, and every run reference exists |
| ScanJobRuns.RowsOnlyEvolve | backend/crates/storage/src/scan_jobs.rs:17-184 | Over any stretch of a run no row is lost or changes identity, attempt counts never fall, and succeeded and dead-lettered rows never change |
| ScanJobRuns.LapsedUntilReclaimed | backend/crates/storage/src/scan_jobs.rs:48-184 | A worker that is not the live owner of a job does not become it until it claims the job |
| ScanJobRuns.LeaseFencing | backend/crates/storage/src/scan_jobs.rs:48-184 | From the moment a worker's lease lapses until it claims the job again, none of its renew, link or mark calls changes anything |
| ScanJobRuns.LeaseProtects | backend/crates/storage/src/scan_jobs.rs:48-184 | Until its lease ends, a worker that does not settle or shorten it keeps the row and its attempt, and no claim can take the job, whatever everybody else does |
| ScanJobRuns.SettledAtMostOnce | backend/crates/storage/src/scan_jobs.rs:138-184 | Two marks that both took effect on a job settled different attempts: each claim is settled at most once |
| ScanJobRuns.ClaimAlwaysAnswers | backend/crates/storage/src/scan_jobs.rs:76-97 | Some result is always legal, and it is a row if and only if an unskipped row is due |
| ScanJobRuns.ClaimEffect | backend/crates/storage/src/scan_jobs.rs:48-125 | The picked row is leased and not due again before the lease ends, every exhausted expired row is dead-lettered, all other rows are untouched, no handed-out or dead-lettered row points at a running run, and only such rows' runs are closed |
| ScanJobRuns.ClaimsDrain | backend/crates/storage/src/scan_jobs.rs:76-97 | Any number of claims at one instant hand out distinct rows and leave the other due rows as they were; each takes one away from those still due |
| ScanJobRuns.ClaimsInOrder | backend/crates/storage/src/scan_jobs.rs:89-97 | Of any number of claims at one instant, every earlier one hands out another row than a later one, and one that comes before it in the declared order of the table they started from |
| ScanJobRuns.DrainedIsEmpty | backend/crates/storage/src/scan_jobs.rs:76-97 | After as many such claims as rows were due, no row locked, nothing is due |
| ScanJobRuns.BackoffRespected | backend/crates/storage/src/scan_jobs.rs:76-97 | Without a manual retry of its address, a job marked retryable is not handed out before its next attempt time, over any run |
| ScanWorkers.EventIsOneStatement | backend/crates/worker/src/lib.rs:1322-1440 | Every event of the worker loop, lost replies and failed finalizations included, is on the job table exactly one queue statement or none |
| ScanWorkers.SystemShapeAlways | backend/crates/worker/src/lib.rs:1142-1186 | In every reachable state what a worker remembers of a live claim is what the row says, a run it remembers is running only while it is the latest run of that claim, and no job outside processing points at a running run |
| ScanWorkers.RunsStayClosed | backend/crates/storage/src/scan_runs.rs:57-70 | Over any run a scan run keeps its job and start time and, once closed, is never running again |
| ScanWorkers.FinishKeepsLinks | backend/crates/worker/src/lib.rs:1417-1438 | Closing a run, also after a finalization that failed or whose reply was lost, keeps rows, runs and the workers' memories consistent |
| ScanWorkers.RunningIsLatestOrOrphan | backend/crates/worker/src/lib.rs:1322-1440 | In every such state a running scan run is the latest run of a processing job, or no job points at it and no worker knows of it |
| ScanWorkers.SettlingOrphansExactly | backend/crates/worker/src/lib.rs:1142-1186 | When a job's settling is committed, its running latest run is orphaned if and only if the worker settles without a run id, and is closed otherwise |
| ScanWorkers.ReclaimCloses | backend/crates/storage/src/scan_jobs.rs:63-110 | Every claim that hands out or dead-letters a job closes its running latest run, whether or not anybody learned of it |
| ScanWorkers.LostReplyOrphans | backend/crates/worker/src/lib.rs:1357-1405 | A concrete run in which a lost insert reply leaves a scan run running for good |
| ScanWorkers.OrphanedExactly | backend/crates/worker/src/lib.rs:1142-1186 | Over every run a scan run is running, unlinked and unknown if and only if at some earlier moment a worker that had not learned of it settled its job; it stays so for good |
| ScanWorkers.SettledKeepsLinks | backend/crates/worker/src/lib.rs:1081-1186 | Settling job and run in one transaction keeps rows, runs and the other workers' memories consistent |
| ScanWorkers.SettlingDecides | backend/crates/worker/src/lib.rs:1081-1186 | A committed settling leaves the job succeeded without error for every outcome but an error, and for an error retryable after 30, 60, 300, 900 or 3600 s by attempt, or dead-lettered after the last; the run the worker knows shows success, locked, unsupported or failed by outcome |
| ScanWorkers.SettlingFails | backend/crates/worker/src/lib.rs:1392-1438 | A settling that does not commit or comes too late leaves the job as it is, and the audit closes the known run as failed |
| ScanWorkers.SuccessIsFinal | backend/crates/worker/src/lib.rs:1091-1099 | A job whose scan did not fail has succeeded, in every later state |
| ScanWorkers.FailureBacksOff | backend/crates/storage/src/scan_jobs.rs:203-212 | Over any run, a job whose failed attempt was not its last is not taken again before 30, 60, 300, 900 or 3600 s, by attempt, are over, unless a manual retry asks for it |
| ScanWorkers.LastFailureIsFinal | backend/crates/worker/src/lib.rs:1101-1110 | A job whose last attempt failed is dead-lettered and its row never changes again |
| ScanBudget.RetryKeepsBudgetExactly | backend/crates/storage/src/scan_jobs.rs:29-46 | A manual retry keeps every row in its attempt budget if and only if it does not lower a waiting row's maximum to attempts already used |
| ScanBudget.BudgetAlways | backend/crates/storage/src/scan_jobs.rs:214-216 | With such retries, in every reachable state waiting jobs have attempts left and processing jobs used between one and their maximum |
| ScanBudget.LoopIsDisciplined | backend/crates/worker/src/lib.rs:1081-1125 | The loop never puts back a job that has no attempt left: the numbers it settles by are the row's |
| ScanBudget.LoweredMaximumOverdraws | backend/crates/storage/src/scan_jobs.rs:34-41 | A concrete run in which the retry of a failed scan run with a lowered maximum lets a row be processed for its second attempt of one |
| ScanBudget.UniformBudgetAlways | backend/crates/storage/src/scan_jobs.rs:17-184 | With one configured positive maximum the budget holds in every reachable state, manual retries included |
| ScanBudget.AccountFalls | backend/crates/storage/src/scan_jobs.rs:17-184 | Claims made plus attempts left, less the budgets inserted jobs brought in, never grows |
| ScanBudget.ClaimsAreBounded | backend/crates/storage/src/scan_jobs.rs:48-125 | In any stretch of a run, claims that handed out a job plus attempts still left are at most the attempts left at its start plus one budget per inserted job |
| Scheduler.MostOverdue | backend/crates/storage/src/repositories.rs:21-35 | The address selected is active, due and idle, and no other selectable one is more overdue; none is selected only if none is selectable |
| Scheduler.SelectableExactly | backend/crates/storage/src/repositories.rs:21-35 | Selectable is exactly an unlocked, active, overdue address without a pending, retryable or processing job |
| Scheduler.EnqueueLosesNothing | backend/crates/scheduler/src/lib.rs:97-117 | After a transaction's commit its address has exactly one active job, whatever ran between the selection and the insert |
| Scheduler.InsertedJobIsDue | backend/crates/storage/src/scan_jobs.rs:229-244 | A newly inserted job is the address's only active one, due from the pass's time on, with its whole budget |
| Scheduler.PassLosesNoAddress | backend/crates/scheduler/src/lib.rs:74-126 | Whatever else happens on the queue and, between transactions, to the address table, at each commit of a pass the one address whose next scan time was advanced, by its interval, was active and overdue and has exactly one active job |
| Scheduler.UndisturbedAlwaysInserts | backend/crates/scheduler/src/lib.rs:87-117 | When nobody else touches the queue within a transaction, it inserts a job |
| Scheduler.Tables.EnqueueDueAddresses | backend/crates/scheduler/src/lib.rs:74-126 | The loop returns the number of newly inserted jobs, at most the batch size, and stops early exactly when no address is selectable |
| AddressImportRuns.ImportSafety | backend/crates/storage/src/address_imports.rs:17-309 | In every reachable state a lock is held exactly while an import runs, a finished import has no pending attempt, and skipped attempts belong to cancelled imports |
| AddressImportRuns.SettledForGood | backend/crates/storage/src/address_imports.rs:98-191 | Over any stretch of a run settled attempts never change, finished imports are never reopened and imports gain no attempts |
| AddressImportCounts.CountsAlways | backend/crates/storage/src/address_imports.rs:151-299 | total_rows is always the number of attempts, counts never run ahead of the attempts, and a cancelled import's counts stay exact with every row processed |
| AddressImportCounts.FinishedCountsExactly | backend/crates/storage/src/address_imports.rs:834-871 | A finished import's counts are exact if and only if it shows every row processed, and then, unless cancelled, success + failed = total |
| AddressImportFinish.FinishStatusExactly | backend/crates/storage/src/address_imports.rs:834-871 | After a finisher's refresh every continuation of the run leaves the right status (failed exactly when there were attempts and all failed) if and only if the refreshed row shows a success or every row processed |
| AddressImportFinish.FinishCountsExactly | backend/crates/storage/src/address_imports.rs:834-871 | The counts a finish leaves are exact if and only if, between its refresh and its final statement, the last recount came after the last mark that settled an attempt of the import |
| AddressImportFinish.SeenEnough | backend/crates/storage/src/address_imports.rs:855-871 | A finish whose refreshed row shows a success or every row processed leaves the right status whatever interleaves |
| AddressImportCounts.FinishWritesVerdict | backend/crates/storage/src/address_imports.rs:855-871 | The status written is decided by the refreshed row, and nothing is pending at the check |
| AddressImportFinish.StaleVerdict | backend/crates/worker/src/lib.rs:1188-1276 | A concrete run of two workers' import loops, with a takeover before the first lists its attempts, in which an import with one success ends as failed with stale counts |
| AddressImportLocks.TakeoverNeedsStaleLock | backend/crates/storage/src/address_imports.rs:17-46 | A running import is taken from another worker only when its lock is more than five minutes old and the claimer has no unskipped import of its own |
| AddressImportLocks.LockProtects | backend/crates/storage/src/address_imports.rs:17-66 | While claimers' clocks are within five minutes of a lock, the import stays its worker's until it is finished |
| AddressImportLocks.LostLockChangesNothing | backend/crates/storage/src/address_imports.rs:58-149 | Once an import is not locked by a worker, its renewals and marks under that lock change nothing until it claims again |
| AddressImportStore.Store.CreateImport | backend/crates/storage/src/address_imports.rs:512-542 | Import and attempts appear together; the old attempts stay, and a pending one follows for every seed's row and chain |
| AddressImportEffects.CreateEffect | backend/crates/storage/src/address_imports.rs:512-588 | The new import waits with nothing counted, and attempt by attempt carries the row and chain of its seed, pending and without a result; everything older stays |
| AddressImportEffects.CreatedAsPlanned | backend/crates/storage/src/address_imports.rs:502-542 | An accepted request, planned and created, leaves exactly one attempt for every row and chain configuration, and it is pending |
| AddressImportEffects.ClaimPicksExactly | backend/crates/storage/src/address_imports.rs:17-46 | The import claimed is the worker's own, locked more than five minutes before, or waiting, in this order and then by age; none is claimed only when there is none |
| AddressImportEffects.ClaimEffect | backend/crates/storage/src/address_imports.rs:39-46 | The import runs under the worker's lock from now on, keeps its first start and its counts, and nothing else changes |
| AddressImportEffects.RenewEffect | backend/crates/storage/src/address_imports.rs:58-66 | A renewal moves the lock time of the worker's own running import and nothing else |
| AddressImportEffects.MarkEffect | backend/crates/storage/src/address_imports.rs:98-149 | On an import not cancelled a mark settles exactly a pending attempt under a fitting lock or none named, with its own result; on a cancelled one it matches pending and skipped attempts and changes nothing |
| AddressImportEffects.RefreshEffect | backend/crates/storage/src/address_imports.rs:151-174 | A refresh writes the three counts of that moment and nothing else |
| AddressImportEffects.CancelEffect | backend/crates/storage/src/address_imports.rs:253-299 | A cancel skips exactly the pending attempts of the import, with the reason, and releases its lock |
| AddressImportEffects.CancelRefused | backend/crates/storage/src/address_imports.rs:253-299 | On an import that is neither waiting nor running a cancel changes nothing |
| AddressImportEffects.FinishEffect | backend/crates/storage/src/address_imports.rs:176-191 | The final statement writes verdict and completion to a running import and releases its lock; any other import stays |
| AddressImportStore.Store.ClaimNext | backend/crates/storage/src/address_imports.rs:17-54 | Locks a least claimable import (own, stale, waiting; then oldest), and finds none only when none is claimable |
| AddressImportStore.Store.RenewLock | backend/crates/storage/src/address_imports.rs:58-66 | Renews exactly for the holder of a running import |
| AddressImportStore.Store.MarkSuccess | backend/crates/storage/src/address_imports.rs:98-123 | Reports whether the row matched; changes only a pending attempt, to success; on a cancelled import it matches and changes nothing |
| AddressImportStore.Store.MarkFailed | backend/crates/storage/src/address_imports.rs:125-149 | Reports whether the row matched; changes only a pending attempt, to failed; on a cancelled import it matches and changes nothing |
| AddressImportStore.Store.RefreshCounts | backend/crates/storage/src/address_imports.rs:151-174 | The row returned has the exact counts of that moment |
| AddressImportStore.Store.CancelImport | backend/crates/storage/src/address_imports.rs:618-651 | Succeeds exactly on a waiting or running import; then nothing is pending and the counts are exact; otherwise nothing changes |
| AddressImportStore.Store.CompleteIfFinished | backend/crates/storage/src/address_imports.rs:834-871 | The three statements of a finish in a row |
| AddressImportStore.UninterruptedFinish | backend/crates/storage/src/address_imports.rs:834-871 | With nothing in between, an import is finished exactly when nothing is pending, failed exactly when every attempt failed, with success + failed = total |
| ImportPlan.AttemptCount | backend/crates/storage/src/address_imports.rs:438-443 | The checked product is returned if and only if it fits a 32-bit signed integer |
| ImportPlan.CreatePlan | backend/crates/storage/src/address_imports.rs:411-436 | The attempts are the row-major product of rows and chain configurations, total_rows of them, within 32 bits; the only error is a count out of range |
| ImportPlan.PlanPairs | backend/crates/storage/src/address_imports.rs:419-427 | attempts[i * m + j] carries the number of row i and the chain and assets of configuration j |
| ImportPlan.PlanKeysDistinct | backend/crates/storage/src/address_imports.rs:411-500 | For every accepted request the plan's (row_number, chain_id) keys are pairwise distinct |
| ImportPlan.Validate | backend/crates/storage/src/address_imports.rs:445-500 | Accepts exactly the requests meeting the declarative specification, and names a true reason otherwise |
| ImportPlan.ValidateRows | backend/crates/storage/src/address_imports.rs:475-497 | The row loop accepts exactly non-blank addresses with distinct positive numbers and distinct lower-cased keys |
| ImportPreview.MarkDuplicateRows | frontend/src/addressImport.ts:66-78 | Whatever lower-casing does, the pass with a growing key set marks exactly the blank rows and the later occurrences of a key |
| ImportPreview.InputLinesAre | frontend/src/addressImport.ts:23-26 | The lines read are exactly the trimmed non-blank texts between line feeds, with or without carriage returns, numbered from one |
| ImportPreview.CsvAddress | frontend/src/addressImport.ts:40-62 | Under a header line with an address column, the last of several, each further line is a row with its number, its text and the trimmed cell of that column as address |
| ImportPreview.PlainAddress | frontend/src/addressImport.ts:33-37 | Without an address column every line is a row whose address is its text |
| Text.TrimIs | frontend/src/addressImport.ts:25 | Trimming takes away exactly the white space before the first and after the last other character |
| Text.SplitIs | frontend/src/addressImport.ts:80-82 | The pieces of a split hold no separator and, put together with it, are the text |
| ImportPreview.PreviewRows | frontend/src/addressImport.ts:22-78 | For every input and every lower-casing the rows without an error have increasing positive numbers and distinct non-blank keys |
| ImportPreview.EachKeySurvivesOnce | frontend/src/addressImport.ts:66-78 | For every input and every lower-casing each non-blank key survives, as its first occurrence and in no other row |
| ImportPreview.PreviewIsAccepted | frontend/src/addressImport.ts:22-78 | For every ASCII input a non-empty list of rows without an error passes the server's row checks, and the request is accepted when configurations and attempt count are acceptable |
| AmountDisplay.ExactDisplay | backend/crates/chain-providers/src/evm.rs:432-457 | Every canonical amount is shown, the same on all three chains, tidily, denoting exactly amount / 10^decimals, and reads back to the amount |
| AmountDisplay.RenderReadsBack | backend/crates/chain-providers/src/tron.rs:596-621 | For every digit string, leading zeros included, what is shown reads back to its value |
| AmountDisplay.DisplayIsInjective | backend/crates/chain-providers/src/btc.rs:414-449 | Distinct canonical amounts are shown differently at one scale |
| AmountDisplay.HexDisplay | backend/crates/chain-providers/src/evm.rs:418-457 | From any 0x quantity to the text shown: it denotes exactly the quantity's value over 10^decimals and reads back to it |
| AmountDisplay.HexParsersAgree | backend/crates/chain-providers/src/evm.rs:412-423 | The 64-bit parser succeeds exactly on quantities in range and then agrees with the unbounded one |
| AmountDisplay.HexAcceptedExactly | backend/crates/chain-providers/src/evm.rs:732-744 | A quantity is accepted if and only if it is 0x and at least one hexadecimal digit of either case |
| AmountDisplay.QuantityRoundTrip | backend/crates/chain-providers/src/evm.rs:418-457 | Every number written in hexadecimal is read as that number and shown for it at any scale |
| AmountDisplay.AcceptedExactly | backend/crates/chain-providers/src/btc.rs:414-433 | Which inputs the formatters accept, and the error for each other: negative scale, no digits, for Bitcoin a negative amount |
| AmountDisplay.BalanceAcceptedExactly | backend/crates/chain-providers/src/tron.rs:125-137 | A balance is accepted if and only if neither it nor the scale is negative |
| AmountDisplay.BalanceDisplay | backend/crates/chain-providers/src/tron.rs:125-137 | A non-negative balance is stored canonically and shown exactly |
| AmountDisplay.TransferDisplay | backend/crates/chain-providers/src/tron.rs:623-634 | A token amount with white space and leading zeros is accepted exactly when digits remain, stored canonically and shown exactly |
| AmountDisplay.FormattersAgreeExactly | backend/crates/chain-providers/src/btc.rs:414-449 | On any digit string the EVM and TRON formatters print what the Bitcoin formatter prints if and only if it is canonical or has at most decimals + 1 digits |
| AmountDisplay.LeadingZeroShows | backend/crates/chain-providers/src/evm.rs:432-457 | "00" at scale 0 is shown as "00" by the EVM and TRON formatters and as "0" by the Bitcoin formatter |
| AmountThreshold.LexIsNumeric | backend/crates/notifier/src/lib.rs:233-237 | On equally long digit strings lexicographic order is numeric order |
| AmountThreshold.ThresholdIsNumeric | backend/crates/notifier/src/lib.rs:219-238 | For all inputs the minimum is met if and only if there is none, or both are digit strings and the amount's value is at least the minimum's |
| AmountThreshold.MatchesExactly | backend/crates/notifier/src/lib.rs:173-217 | A rule matches exactly the events of its own tenant, while enabled, that have the value of every filter set and an amount at least the minimum, as numbers |
| AmountThreshold.NarrowingNarrows | backend/crates/notifier/src/lib.rs:173-217 | A rule narrowed by one filter matches exactly the events of the wider rule with that value; a disabled one matches none |
| AmountThreshold.MatchingIsMonotone | backend/crates/notifier/src/lib.rs:173-217 | A matching rule also matches larger amounts, smaller minimums and no minimum |
| AmountThreshold.OnlyThresholdSeparates | backend/crates/notifier/src/lib.rs:173-217 | Two events differing only in the amount are told apart by a rule only when its minimum lies between them |
| BtcTransfers.WellFormedAddress | backend/crates/chain-providers/src/btc.rs:64-82 | A well-formed address is looked up as written |
| BtcTransfers.Classify | backend/crates/chain-providers/src/btc.rs:302-375 | The two accumulating loops: an error exactly for the first failing check; otherwise no report when nothing moved, else direction and amount are the sign and size of received minus spent, shown exactly |
| BtcTransfers.AcceptsExactly | backend/crates/chain-providers/src/btc.rs:302-343 | The classifier answers if and only if the address is 14 to 90 letters and digits with a supported beginning, the transaction is confirmed at a height of at least 0, ids are 64 hexadecimal digits and no value is negative; otherwise it names the first defect |
| BtcTransfers.SampleIsIncoming | backend/crates/chain-providers/src/btc.rs:349-374 | A concrete confirmed payment of 7 satoshi to a watched address is reported as incoming with amount 7 |
| BtcTransfers.ClassifierConserves | backend/crates/chain-providers/src/btc.rs:302-375 | For a valid transaction and any duplicate-free list of well-formed addresses the classifier answers for each, and the signed amounts of its answers add up to outputs paid to the list minus prevouts spent from it: outputs minus inputs when it covers them all |
| BtcTransfers.Conservation | backend/crates/chain-providers/src/btc.rs:302-375 | Any reports that say what each address of a duplicate-free list received and spent add up so |
| BtcTransfers.FullCoverage | backend/crates/chain-providers/src/btc.rs:302-375 | When the list covers every address and prevout, they add up to outputs minus inputs |
| BtcTransfers.OrderDoesNotMatter | backend/crates/chain-providers/src/btc.rs:302-375 | Reordering inputs and outputs does not change the classifier's answer for any address and transaction, report or error |
| ProviderHealth.BreakerReflectsHistory | backend/crates/storage/src/provider_health.rs:40-65 | After any calls about any providers each row shows its own trailing failure run, and is disabled until the last failure plus 300 s exactly when that run is at least three |
| ProviderHealth.FailureMatchesPolicy | backend/crates/storage/src/provider_health.rs:51-65 | The statement's CASE and provider_disabled_until agree exactly when a row under the threshold was not disabled, so on every row a history leads to |
| ProviderHealth.CandidatesSkipOpenCircuits | backend/crates/storage/src/provider_health.rs:14-38 | An active provider is left out of the candidates exactly while is_provider_circuit_open holds, that is for 300 s after the latest of at least three failures in a row |
| ProviderHealth.CandidatesExactly | backend/crates/storage/src/provider_health.rs:14-38 | The candidates of a chain are exactly its active RPC providers without three failures in a row of which the last is less than 300 s ago |
| ProviderHealth.Store.RecordSuccess | backend/crates/storage/src/provider_health.rs:40-49 | Resets the run and closes the circuit of that provider only |
| ProviderHealth.Store.RecordFailure | backend/crates/storage/src/provider_health.rs:51-65 | Extends the run of that provider only; from the third failure on the circuit is open |
| ProviderHealth.CountersCount | backend/crates/storage/src/provider_health.rs:242-269 | By whatever clocks the callers name their second, a live counter holds the requests for its key since the last pause of two seconds |
| ProviderHealth.GrantedExactly | backend/crates/storage/src/provider_health.rs:189-269 | A request is granted if and only if it is within its limit among the requests for its key since the last pause |
| ProviderHealth.LimitMetExactly | backend/crates/storage/src/provider_health.rs:189-269 | For one limit per key and any clocks, grants stay within the limit if and only if no more was asked or the key never expired between two requests; without such a pause exactly the smaller of requests and limit is granted |
| ProviderHealth.WindowGrantsExactly | backend/crates/storage/src/provider_health.rs:189-269 | With callers' clocks within half a second of the store's no key expires between its requests, so in every second exactly the smaller of requests and limit is granted |
| ProviderHealth.WiderSkewOverruns | backend/crates/storage/src/provider_health.rs:242-269 | With 501 ms of skew two requests of one second are both granted under a limit of one |
| AuthSession.StaleUnauthorizedIsIgnored | frontend/src/auth/session.ts:98-142 | A 401 for a request made before the session was saved anew or cleared changes nothing, in any run |
| AuthSession.UnauthorizedEndsExactly | frontend/src/auth/session.ts:128-142 | A 401 ends the session exactly when generation and token are current, and a second identical one does nothing |
| AuthSession.FreshUnauthorizedEnds | frontend/src/auth/session.ts:110-142 | A 401 ends the session it was asked under when nothing else happened |
| AuthSession.Module.LoadStoredSession | frontend/src/auth/session.ts:76-96 | A session is adopted exactly as stored and under the same generation; the generation advances exactly for an unusable entry, which is then gone; loading again changes nothing |
| AuthSession.ReloadKeepsSession | frontend/src/auth/session.ts:76-118 | A page that has storage to itself has, after any run, the session it would have after a reload |
| AuthSession.Module.GetAuthRequestContext | frontend/src/auth/session.ts:110-118 | The context carries the token and the generation as they are after storage was read |
| AuthSession.Module.HandleUnauthorized | frontend/src/auth/session.ts:128-142 | An answer of another generation changes nothing, not even by reading storage; the handler is called exactly when generation and token are current, and then the session is gone |
| Realtime.OneActivityAlways | frontend/src/realtime/notifications.ts:82-180 | In every order of events a connection has at most one of live socket, probe and timer, exactly one while it is neither stopped, stale nor told it is unauthorized, and it reports that at most once |
| Realtime.NextIsQuiet | frontend/src/realtime/notifications.ts:95-165 | onUnauthorized is called only by a connection that is neither stopped nor of an older generation; a dead connection tells nothing and starts nothing |
| Realtime.SilentOnceDead | frontend/src/realtime/notifications.ts:82-180 | Once stopped or stale, a connection stays so and silent for the rest of any run |
| Realtime.EndedForGood | frontend/src/realtime/notifications.ts:82-180 | When nothing is running any more nothing starts again |
| Realtime.BackoffDoubles | frontend/src/realtime/notifications.ts:60-147 | In every run the reconnects in a row without an open wait 1, 2, 4, 8 and 16 s, and 30 s from the sixth on |
| Realtime.DelayBounds | frontend/src/realtime/notifications.ts:60-62 | Every reconnect delay is between one and thirty seconds |
| Realtime.Connection.OpenSocket | frontend/src/realtime/notifications.ts:136-138 | Exactly one fresh socket for a connection neither stopped nor stale, nothing for another |
| Realtime.Connection.Reschedule | frontend/src/realtime/notifications.ts:107-113 | The timer armed is new and waits, between one and thirty seconds, for the attempts made before it; a timer armed earlier can fire no more |
| Realtime.Connection.HandleOpen | frontend/src/realtime/notifications.ts:140-147 | After an open the next reconnect waits one second again; a dead connection changes nothing |
| Realtime.Connection.FireTimer | frontend/src/realtime/notifications.ts:136-138 | A firing timer hands over to one new socket, or to nothing for a dead connection; one activity is kept |
| Realtime.Connection.HandleClose | frontend/src/realtime/notifications.ts:157-165 | From one activity to one activity: a policy close (code 1008, section 7.4.1 of RFC 6455) is reported once with nothing left running, an unopened socket leaves one probe, any other close one timer, and a dead connection nothing |
| Realtime.Connection.HandleProbe | frontend/src/realtime/notifications.ts:119-131 | From one activity to one activity: a refusal is reported once with nothing left running, any other outcome leaves one timer, and a dead connection nothing |
| Realtime.Connection.StopConnection | frontend/src/realtime/notifications.ts:174-179 | No timer is left, and no event that still arrives tells the application anything or starts anything |
| RealtimeSession.InStepAlways | frontend/src/App.tsx:87-112 | With the socket wired to the session, the connection always sees the session's generation and keeps one activity, and a probe sent with a token was sent for the connection's own generation |
| RealtimeSession.NewerSessionSurvives | frontend/src/App.tsx:71-112 | Once a session was saved or cleared after the connection was opened, no close, refused probe or late answer of it takes a session away |
| RealtimeSession.EndsAtMostOnce | frontend/src/App.tsx:71-112 | A connection ends at most one session, by whichever of its two routes |
| RealtimeSession.PolicyCloseEnds | frontend/src/App.tsx:71-74 | A policy close of a live connection ends the session and leaves the connection stale with nothing running |
| RealtimeSession.ProbeAsks | frontend/src/realtime/notifications.ts:115-134 | A close before the first open sends one probe with the session's own token |
| RealtimeSession.RefusalEnds | frontend/src/api/client.ts:68-81 | A 401 to a probe ends the session if and only if generation and token are still those it was sent with |
| UrlRedaction.StartIsFirst | backend/crates/notifier/src/external.rs:704-713 | The search finds the earliest place where http:// or https:// occurs in any case, and nothing only when there is none |
| UrlRedaction.CapitalsAreFound | backend/crates/notifier/src/external.rs:704-713 | Concrete texts in which a URL in capitals or mixed case is found |
| UrlRedaction.RedactUrlsInText | backend/crates/notifier/src/external.rs:688-702 | The loop terminates and returns the pieces of the text with each URL replaced by its redacted form |
| UrlRedaction.SegmentsCover | backend/crates/notifier/src/external.rs:688-702 | The pieces rebuild the text, and a character is in a URL piece if and only if a URL starts at or before it with no white space in between |
| UrlRedaction.RedactionKeepsPieces | backend/crates/notifier/src/external.rs:680-713 | The redacted text has the same pieces: plain ones unchanged and in order, each URL in its redacted form |
| UrlRedaction.RedactionIsIdempotent | backend/crates/notifier/src/external.rs:680-713 | Redacting twice is redacting once, for both redactors |
| UrlRedaction.UrlRedacts | backend/crates/notifier/src/external.rs:748-762 | A redacted URL keeps its scheme, has no white space and nothing left to redact |
| UrlRedaction.TokenIsHidden | backend/crates/notifier/src/external.rs:748-758 | What stands between the first /bot and the next slash is replaced by the mask and does not influence the result |
| UrlRedaction.QueryIsHidden | backend/crates/notifier/src/external.rs:760-762 | A webhook URL keeps what precedes its first question mark and nothing of its query |
| UrlRedaction.NoQueryLeft | backend/crates/notifier/src/external.rs:680-713 | No URL in a text redacted for webhooks has a question mark |
| UrlRedaction.OnlyMaskLeft | backend/crates/notifier/src/external.rs:680-713 | In every text redacted for Telegram each URL with a /bot has only the mask between its first one and the next slash |

## Left out

- Identifiers: rows are named by their position, so UUID generation and lookups of unknown foreign ids are not modelled; columns kept for audit only (updated_at, durations, metadata, event counts) are dropped.
- Clock and isolation: every statement is atomic on one monotone database clock; Postgres anomalies and the check that a scan run does not finish before it starts under clock skew are not modelled.
- Widths of counters: attempt counts and row counts are unbounded; only the import attempt count's 32-bit check and the 64-bit hex parser are modelled with their limits.
- Scheduler.MostOverdue: ties left by the ORDER BY are broken by position; finish_address_scan, which also moves next scan times, is one of the arbitrary writes to the address table between transactions.
- Tenants: import statements are modelled for one tenant; list, error and status-count queries are not modelled.
- A manual retry's own checks, that the scan run failed or was unsupported and has not been retried, and its request flags on that run are not modelled; ScanJobStore.Store.InsertRetry is its insert.
- The watched address an import attempt creates in its own transaction is a given number here.
- Redis wake-up signals, which carry no state; a failing EXPIRE of a request counter is not modelled.
- ProviderHealth.CandidatesSkipOpenCircuits: says which providers are selected, not the order by priority and name.
- Sanitizing provider errors, truncating provider responses, parsing of provider payloads (JSON), hashing of log indexes and Base58 are library or input/output code.
- AmountDisplay.ExactDisplay: the plus sign and underscores num-bigint accepts in input are not modelled; inputs are digit strings, for Bitcoin with white space and a minus sign.
- ImportPreview.PreviewIsAccepted: for ASCII input, on which lower-casing folds ASCII letters; JavaScript and Rust trim and lower-case some other characters differently. The other CSV columns and the warnings are not modelled.
- AuthSession.Module.LoadStoredSession: decoding of the stored text is the case distinction nothing, unusable, kept; the handler's own body is counted, not modelled.
- Realtime.Connection.HandleClose: the browser's socket object is an id that is live until its close event; errors thrown by its constructor and message decoding are not modelled.
- The notification outbox, Telegram offsets, HTTP handlers, pages and configuration loading.
