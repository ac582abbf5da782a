/** The durable scan-job queue: the rows of `scan_jobs` and `scan_runs`, and every SQL
    statement over them as one atomic step on the database clock.

    A row's id is its position in the table: rows are only ever appended. */
module ScanJobs {
  import opened Wrappers

  type JobId = nat
  type RunId = nat
  type Worker = string

  datatype JobStatus = Pending | Retryable | Processing | Succeeded | DeadLetter
  datatype RunStatus = Running | Success | Failed | Locked | Unsupported

  datatype Job = Job(
    tenant: nat, address: nat, chain: nat, status: JobStatus,
    attemptCount: nat, maxAttempts: int, nextAttemptAt: int,
    lockedAt: Option<int>, lockedBy: Option<Worker>, leaseExpiresAt: Option<int>,
    lastError: Option<string>, lastScanRun: Option<RunId>, retryOf: Option<RunId>,
    succeededAt: Option<int>, deadLetteredAt: Option<int>, createdAt: int)

  datatype ScanRun = ScanRun(
    task: JobId, status: RunStatus, startedAt: int, finishedAt: Option<int>,
    errorMessage: Option<string>, reclaimed: bool)

  datatype Db = Db(now: int, jobs: seq<Job>, runs: seq<ScanRun>)

  const EXPIRED_EXHAUSTED := "scan job lease expired after max attempts"
  const EXPIRED_RECLAIMED := "scan job lease expired before retry"

  // ---------- Row predicates ----------

  predicate Waiting(j: Job) { j.status == Pending || j.status == Retryable }

  predicate Active(j: Job) { Waiting(j) || j.status == Processing }

  predicate Terminal(j: Job) { j.status == Succeeded || j.status == DeadLetter }

  predicate Expired(j: Job, now: int) {
    j.status == Processing && j.leaseExpiresAt.Some? && j.leaseExpiresAt.value <= now
  }

  predicate Exhausted(j: Job, now: int) { Expired(j, now) && j.attemptCount >= j.maxAttempts }

  predicate Due(j: Job, now: int) {
    || (Waiting(j) && j.nextAttemptAt <= now)
    || (Expired(j, now) && j.attemptCount < j.maxAttempts)
  }

  // The guard shared by renew, link and all three mark statements.
  predicate LiveOwner(j: Job, worker: Worker, now: int) {
    && j.lockedBy == Some(worker) && j.status == Processing
    && j.leaseExpiresAt.Some? && j.leaseExpiresAt.value > now
  }

  function NextAttemptAt(now: int, attemptCount: int): int {
    now + (match attemptCount
           case 0 => 30
           case 1 => 30
           case 2 => 60
           case 3 => 300
           case 4 => 900
           case _ => 3600)
  }

  predicate ShouldDeadLetter(attemptCount: int, maxAttempts: int) { attemptCount >= maxAttempts }

  // ---------- Inserting ----------

  // The active row of an address, if there is one (the partial unique index allows at most one).
  function ActiveJob(jobs: seq<Job>, address: nat): (r: Option<JobId>)
    ensures r.Some? ==> r.value < |jobs| && Active(jobs[r.value]) && jobs[r.value].address == address
    ensures r.None? ==> forall i :: 0 <= i < |jobs| && Active(jobs[i]) ==> jobs[i].address != address
  {
    if jobs == [] then None
    else
      var last := |jobs| - 1;
      if Active(jobs[last]) && jobs[last].address == address then Some(last)
      else ActiveJob(jobs[..last], address)
  }

  function NewJob(db: Db, tenant: nat, address: nat, chain: nat, maxAttempts: int,
                  nextAttemptAt: int, retryOf: Option<RunId>): Job {
    Job(tenant, address, chain, Pending, 0, maxAttempts, nextAttemptAt,
        None, None, None, None, None, retryOf, None, None, db.now)
  }

  // ---------- Claiming ----------

  // ORDER BY (expired processing first), next_attempt_at, created_at.
  predicate KeyLe(a: Job, b: Job) {
    var ra := if a.status == Processing then 0 else 1;
    var rb := if b.status == Processing then 0 else 1;
    || ra < rb
    || (ra == rb && (|| a.nextAttemptAt < b.nextAttemptAt
                     || (a.nextAttemptAt == b.nextAttemptAt && a.createdAt <= b.createdAt)))
  }

  // A row the claim may take: due, and not locked by a concurrent claim.
  predicate Candidate(db: Db, skipped: set<JobId>, i: JobId) {
    i < |db.jobs| && i !in skipped && Due(db.jobs[i], db.now)
  }

  // Some candidate of least key, or nothing when there is no candidate.
  predicate LegalPick(db: Db, skipped: set<JobId>, pick: Option<JobId>) {
    match pick
    case Some(p) => Candidate(db, skipped, p)
      && forall i :: 0 <= i < |db.jobs| && Candidate(db, skipped, i) ==> KeyLe(db.jobs[p], db.jobs[i])
    case None => forall i :: 0 <= i < |db.jobs| ==> !Candidate(db, skipped, i)
  }

  function Buried(j: Job, now: int): Job {
    j.(status := DeadLetter, lastError := Some(j.lastError.GetOr(EXPIRED_EXHAUSTED)),
       deadLetteredAt := Some(now), lockedAt := None, lockedBy := None, leaseExpiresAt := None)
  }

  function Leased(j: Job, worker: Worker, now: int, ttl: nat): Job {
    j.(status := Processing, attemptCount := j.attemptCount + 1, lockedAt := Some(now),
       lockedBy := Some(worker), leaseExpiresAt := Some(now + ttl))
  }

  function Closed(run: ScanRun, now: int, message: string): ScanRun {
    run.(status := Failed, finishedAt := Some(now),
         errorMessage := Some(run.errorMessage.GetOr(message)), reclaimed := true)
  }

  function ClaimedJob(db: Db, worker: Worker, ttl: nat, pick: Option<JobId>, i: nat): Job
    requires i < |db.jobs|
  {
    if Exhausted(db.jobs[i], db.now) then Buried(db.jobs[i], db.now)
    else if pick == Some(i) then Leased(db.jobs[i], worker, db.now, ttl)
    else db.jobs[i]
  }

  predicate PointedByExhausted(db: Db, r: RunId) {
    exists i :: 0 <= i < |db.jobs| && Exhausted(db.jobs[i], db.now) && db.jobs[i].lastScanRun == Some(r)
  }

  predicate PointedByPick(db: Db, pick: Option<JobId>, r: RunId) {
    pick.Some? && pick.value < |db.jobs| && db.jobs[pick.value].lastScanRun == Some(r)
  }

  function ClaimedRun(db: Db, pick: Option<JobId>, r: RunId): ScanRun
    requires r < |db.runs|
  {
    if db.runs[r].status != Running then db.runs[r]
    else if PointedByExhausted(db, r) then Closed(db.runs[r], db.now, EXPIRED_EXHAUSTED)
    else if PointedByPick(db, pick, r) then Closed(db.runs[r], db.now, EXPIRED_RECLAIMED)
    else db.runs[r]
  }

  // The whole statement on one snapshot: every row says what becomes of it.
  function ClaimResult(db: Db, worker: Worker, ttl: nat, pick: Option<JobId>): Db {
    db.(jobs := seq(|db.jobs|, i requires 0 <= i < |db.jobs| => ClaimedJob(db, worker, ttl, pick, i)),
        runs := seq(|db.runs|, r requires 0 <= r < |db.runs| => ClaimedRun(db, pick, r)))
  }

  // ---------- Renewing and settling ----------

  function Released(j: Job, status: JobStatus, run: Option<RunId>): Job {
    j.(status := status, lastScanRun := run, lockedAt := None, lockedBy := None, leaseExpiresAt := None)
  }

  // Applies `row` to one job when the worker still owns it; otherwise no row matches.
  predicate Owns(db: Db, worker: Worker, job: JobId) {
    job < |db.jobs| && LiveOwner(db.jobs[job], worker, db.now)
  }

  // last_scan_run_id and retry_of_scan_run_id reference scan_runs(id).
  predicate RunExists(db: Db, run: Option<RunId>) { run.Some? ==> run.value < |db.runs| }

  // ---------- The statements as operations ----------

  datatype Op =
    | Tick(elapsed: nat)
    | Schedule(tenant: nat, address: nat, chain: nat, maxAttempts: int, nextAttemptAt: int)
    | Retry(tenant: nat, address: nat, chain: nat, maxAttempts: int, nextAttemptAt: int, retryOf: RunId)
    | Claim(worker: Worker, ttl: nat, skipped: set<JobId>, pick: Option<JobId>)
    | Renew(worker: Worker, job: JobId, ttl: nat)
    | MarkSucceeded(worker: Worker, job: JobId, run: Option<RunId>)
    | MarkRetryable(worker: Worker, job: JobId, nextAttemptAt: int, error: string, run: Option<RunId>)
    | MarkDeadLetter(worker: Worker, job: JobId, error: string, run: Option<RunId>)
    | InsertRun(worker: Worker, job: JobId, startedAt: int)
    | FinishRun(finished: RunId, status: RunStatus, finishedAt: int, message: Option<string>)

  predicate IsMark(op: Op) { op.MarkSucceeded? || op.MarkRetryable? || op.MarkDeadLetter? }

  // The renew, link and mark statements: a worker's calls on one job.
  predicate IsOwnerCall(op: Op, worker: Worker, job: JobId) {
    (IsMark(op) || op.Renew? || op.InsertRun?) && op.worker == worker && op.job == job
  }

  function ApplySchedule(db: Db, op: Op): Db
    requires op.Schedule?
  {
    if ActiveJob(db.jobs, op.address).Some? then db
    else db.(jobs := db.jobs + [NewJob(db, op.tenant, op.address, op.chain, op.maxAttempts, op.nextAttemptAt, None)])
  }

  function ApplyRetry(db: Db, op: Op): Db
    requires op.Retry?
  {
    if !RunExists(db, Some(op.retryOf)) then db
    else
      match ActiveJob(db.jobs, op.address)
      case None =>
        db.(jobs := db.jobs + [NewJob(db, op.tenant, op.address, op.chain, op.maxAttempts, op.nextAttemptAt,
            Some(op.retryOf))])
      case Some(i) =>
        if !Waiting(db.jobs[i]) then db
        else db.(jobs := db.jobs[i := db.jobs[i].(status := Pending, maxAttempts := op.maxAttempts,
                                                    nextAttemptAt := op.nextAttemptAt,
                                                    retryOf := Some(op.retryOf), lastError := None)])
  }

  function MarkedJob(db: Db, op: Op): Job
    requires IsMark(op) && op.job < |db.jobs|
  {
    var j := db.jobs[op.job];
    match op
    case MarkSucceeded(_, _, run) => Released(j, Succeeded, run).(lastError := None, succeededAt := Some(db.now))
    case MarkRetryable(_, _, next, error, run) =>
      Released(j, Retryable, run).(nextAttemptAt := next, lastError := Some(error))
    case MarkDeadLetter(_, _, error, run) =>
      Released(j, DeadLetter, run).(lastError := Some(error), deadLetteredAt := Some(db.now))
    case _ => j
  }

  function ApplyMark(db: Db, op: Op): Db
    requires IsMark(op)
  {
    if Owns(db, op.worker, op.job) && RunExists(db, op.run)
    then db.(jobs := db.jobs[op.job := MarkedJob(db, op)])
    else db
  }

  function ApplyRenew(db: Db, op: Op): Db
    requires op.Renew?
  {
    if Owns(db, op.worker, op.job)
    then db.(jobs := db.jobs[op.job := db.jobs[op.job].(lockedAt := Some(db.now),
        leaseExpiresAt := Some(db.now + op.ttl))])
    else db
  }

  function ApplyInsertRun(db: Db, op: Op): Db
    requires op.InsertRun?
  {
    if Owns(db, op.worker, op.job)
    then db.(jobs := db.jobs[op.job := db.jobs[op.job].(lastScanRun := Some(|db.runs|))],
             runs := db.runs + [ScanRun(op.job, Running, op.startedAt, None, None, false)])
    else db
  }

  function ApplyFinishRun(db: Db, op: Op): Db
    requires op.FinishRun?
  {
    if op.finished < |db.runs|
    then db.(runs := db.runs[op.finished := db.runs[op.finished].(
                               status := op.status, finishedAt := Some(op.finishedAt), errorMessage := op.message)])
    else db
  }

  // One statement. A claim whose pick the ORDER BY would not return is not a step: it changes nothing.
  function Apply(db: Db, op: Op): Db {
    match op
    case Tick(elapsed) => db.(now := db.now + elapsed)
    case Schedule(_, _, _, _, _) => ApplySchedule(db, op)
    case Retry(_, _, _, _, _, _) => ApplyRetry(db, op)
    case Claim(worker, ttl, skipped, pick) =>
      if LegalPick(db, skipped, pick) then ClaimResult(db, worker, ttl, pick) else db
    case Renew(_, _, _) => ApplyRenew(db, op)
    case InsertRun(_, _, _) => ApplyInsertRun(db, op)
    case FinishRun(_, _, _, _) => ApplyFinishRun(db, op)
    case _ => ApplyMark(db, op)
  }

  // The database after the first k operations: any interleaving of any callers.
  function At(db: Db, ops: seq<Op>, k: nat): Db
    requires k <= |ops|
  {
    if k == 0 then db else Apply(At(db, ops, k - 1), ops[k - 1])
  }
}
