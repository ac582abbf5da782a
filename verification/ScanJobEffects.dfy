/** What the queue's statements do, in the columns of the tables. */
module ScanJobEffects {
  import opened Wrappers
  import opened ScanJobs
  import opened ScanJobRuns

  // ---------- Inserting ----------

  // A job nobody holds, with no attempt used and no result, due from the given time on.
  ghost predicate Fresh(j: Job, tenant: nat, address: nat, chain: nat, maxAttempts: int, nextAttemptAt: int, now: int) {
    && j.tenant == tenant && j.address == address && j.chain == chain && j.createdAt == now
    && j.status == Pending && j.attemptCount == 0 && j.maxAttempts == maxAttempts && j.nextAttemptAt == nextAttemptAt
    && j.lockedAt.None? && j.lockedBy.None? && j.leaseExpiresAt.None?
    && j.lastError.None? && j.lastScanRun.None? && j.succeededAt.None? && j.deadLetteredAt.None?
  }

  ghost predicate HasActive(db: Db, address: nat) {
    exists i :: 0 <= i < |db.jobs| && IsActiveFor(db.jobs[i], address)
  }

  predicate IsActiveFor(j: Job, address: nat) {
    j.address == address && (j.status == Pending || j.status == Retryable || j.status == Processing)
  }

  // Scheduling appends one fresh job for an address without an active one, and otherwise does nothing.
  lemma ScheduleInserts(db: Db, op: Op)
    requires op.Schedule?
    ensures var after := Apply(db, op);
            && after.now == db.now && after.runs == db.runs
            && (if HasActive(db, op.address) then after == db
                else && |after.jobs| == |db.jobs| + 1 && after.jobs[..|db.jobs|] == db.jobs
                     && after.jobs[|db.jobs|].retryOf.None?
                     && Fresh(after.jobs[|db.jobs|], op.tenant, op.address, op.chain, op.maxAttempts,
                         op.nextAttemptAt, db.now))
  {
    ActiveIsFound(db, op.address);
  }

  lemma ActiveIsFound(db: Db, address: nat)
    ensures ActiveJob(db.jobs, address).Some? <==> HasActive(db, address)
  {
    match ActiveJob(db.jobs, address)
    case Some(i) => assert IsActiveFor(db.jobs[i], address);
    case None =>
  }

  // What a retry makes of the address's waiting job: the new schedule, without the old error; nothing else changes.
  ghost predicate Readied(a: Job, b: Job, maxAttempts: int, nextAttemptAt: int, retryOf: RunId) {
    && b.status == Pending && b.maxAttempts == maxAttempts && b.nextAttemptAt == nextAttemptAt
    && b.retryOf == Some(retryOf) && b.lastError.None?
    && b == a.(status := b.status, maxAttempts := b.maxAttempts, nextAttemptAt := b.nextAttemptAt,
               retryOf := b.retryOf, lastError := b.lastError)
  }

  // A retry of an existing run appends a fresh job for an idle address, readies the waiting one, and leaves a
  // processing one alone.
  lemma RetryInserts(db: Db, op: Op)
    requires op.Retry? && op.retryOf < |db.runs|
    ensures var after := Apply(db, op);
            && after.now == db.now && after.runs == db.runs
            && (!HasActive(db, op.address) ==>
                  && |after.jobs| == |db.jobs| + 1 && after.jobs[..|db.jobs|] == db.jobs
                  && after.jobs[|db.jobs|].retryOf == Some(op.retryOf)
                  && Fresh(after.jobs[|db.jobs|], op.tenant, op.address, op.chain, op.maxAttempts, op.nextAttemptAt,
                      db.now))
            && (HasActive(db, op.address) ==> |after.jobs| == |db.jobs|)
  {
    ActiveIsFound(db, op.address);
  }

  lemma RetryReuses(db: Db, op: Op, i: JobId)
    requires QueueShape(db) && op.Retry? && op.retryOf < |db.runs| && i < |db.jobs|
             && IsActiveFor(db.jobs[i], op.address)
    ensures var after := Apply(db, op);
            if db.jobs[i].status == Processing then after == db
            else && |after.jobs| == |db.jobs|
                 && (forall k :: 0 <= k < |db.jobs| && k != i ==> after.jobs[k] == db.jobs[k])
                 && Readied(db.jobs[i], after.jobs[i], op.maxAttempts, op.nextAttemptAt, op.retryOf)
  {
    ActiveIsFound(db, op.address);
    var k := ActiveJob(db.jobs, op.address).value;
    assert Active(db.jobs[k]) && Active(db.jobs[i]);
  }

  // ---------- Claiming ----------

  // Waiting and due, or in processing with a lease that has ended and an attempt left.
  predicate MayBeHandedOut(j: Job, now: int) {
    || ((j.status == Pending || j.status == Retryable) && j.nextAttemptAt <= now)
    || (j.status == Processing && LeaseEnded(j, now) && j.attemptCount < j.maxAttempts)
  }

  predicate LeaseEnded(j: Job, now: int) { j.leaseExpiresAt.Some? && j.leaseExpiresAt.value <= now }

  // An expired attempt goes before waiting jobs; then the earlier next attempt; then the older job.
  predicate GoesBefore(a: Job, b: Job) {
    if a.status == Processing && b.status != Processing then true
    else if a.status != Processing && b.status == Processing then false
    else if a.nextAttemptAt != b.nextAttemptAt then a.nextAttemptAt < b.nextAttemptAt
    else a.createdAt <= b.createdAt
  }

  // A claim takes a row that may be handed out and that no other such row it does not skip must precede, and
  // takes nothing only when there is none.
  lemma ClaimPicksExactly(db: Db, skipped: set<JobId>, pick: Option<JobId>)
    requires LegalPick(db, skipped, pick)
    ensures pick.Some? ==>
              pick.value < |db.jobs| && pick.value !in skipped && MayBeHandedOut(db.jobs[pick.value], db.now)
    ensures forall i :: 0 <= i < |db.jobs| && i !in skipped && MayBeHandedOut(db.jobs[i], db.now) ==>
              pick.Some? && GoesBefore(db.jobs[pick.value], db.jobs[i])
  {
    forall i | 0 <= i < |db.jobs| && i !in skipped && MayBeHandedOut(db.jobs[i], db.now)
      ensures pick.Some? && GoesBefore(db.jobs[pick.value], db.jobs[i])
    {
      assert Candidate(db, skipped, i);
    }
  }

  // The row handed out is leased to the worker from now on and counts one attempt more; nothing else of it changes.
  ghost predicate HandedTo(a: Job, b: Job, worker: Worker, now: int, ttl: nat) {
    && b.status == Processing && b.attemptCount == a.attemptCount + 1
    && b.lockedAt == Some(now) && b.lockedBy == Some(worker) && b.leaseExpiresAt == Some(now + ttl)
    && b == a.(status := b.status, attemptCount := b.attemptCount, lockedAt := b.lockedAt, lockedBy := b.lockedBy,
               leaseExpiresAt := b.leaseExpiresAt)
  }

  // A dead-lettered row keeps its error, or gets the given one, and is nobody's any more.
  ghost predicate GivenUp(a: Job, b: Job, now: int, message: string) {
    && b.status == DeadLetter && b.deadLetteredAt == Some(now)
    && b.lastError == (if a.lastError.Some? then a.lastError else Some(message))
    && b.lockedAt.None? && b.lockedBy.None? && b.leaseExpiresAt.None?
    && b == a.(status := b.status, deadLetteredAt := b.deadLetteredAt, lastError := b.lastError, lockedAt := None,
               lockedBy := None, leaseExpiresAt := None)
  }

  predicate SpentAndEnded(j: Job, now: int) {
    j.status == Processing && LeaseEnded(j, now) && j.attemptCount >= j.maxAttempts
  }

  // Every row after a claim: handed out, given up, or as it was.
  lemma ClaimRows(db: Db, worker: Worker, ttl: nat, skipped: set<JobId>, pick: Option<JobId>, i: JobId)
    requires LegalPick(db, skipped, pick) && i < |db.jobs|
    ensures var after := Apply(db, Claim(worker, ttl, skipped, pick));
            && |after.jobs| == |db.jobs|
            && (if pick == Some(i) then HandedTo(db.jobs[i], after.jobs[i], worker, db.now, ttl)
                else if SpentAndEnded(db.jobs[i], db.now) then
                  GivenUp(db.jobs[i], after.jobs[i], db.now, "scan job lease expired after max attempts")
                else after.jobs[i] == db.jobs[i])
  {
    assert ClaimResult(db, worker, ttl, pick).jobs[i] == ClaimedJob(db, worker, ttl, pick, i);
  }

  // A closed run failed now, keeps its error or gets the given one, and is marked as reclaimed.
  ghost predicate ClosedAs(a: ScanRun, b: ScanRun, now: int, message: string) {
    && b.status == Failed && b.finishedAt == Some(now) && b.reclaimed
    && b.errorMessage == (if a.errorMessage.Some? then a.errorMessage else Some(message))
    && b.task == a.task && b.startedAt == a.startedAt
  }

  // The running run of a row handed out or given up is closed with the reason; every other run stays as it was.
  lemma ClaimRuns(db: Db, worker: Worker, ttl: nat, skipped: set<JobId>, pick: Option<JobId>, i: JobId, r: RunId)
    requires LegalPick(db, skipped, pick) && r < |db.runs|
    requires i < |db.jobs| && db.jobs[i].lastScanRun == Some(r) && db.runs[r].status == Running
    requires forall k :: 0 <= k < |db.jobs| && k != i ==> db.jobs[k].lastScanRun != Some(r)
    ensures var after := Apply(db, Claim(worker, ttl, skipped, pick));
            && |after.runs| == |db.runs|
            && (if SpentAndEnded(db.jobs[i], db.now) then
                  ClosedAs(db.runs[r], after.runs[r], db.now, "scan job lease expired after max attempts")
                else if pick == Some(i) then
                  ClosedAs(db.runs[r], after.runs[r], db.now, "scan job lease expired before retry")
                else after.runs[r] == db.runs[r])
  {
    assert ClaimResult(db, worker, ttl, pick).runs[r] == ClaimedRun(db, pick, r);
    if SpentAndEnded(db.jobs[i], db.now) { assert Exhausted(db.jobs[i], db.now); }
  }

  // ---------- Owning ----------

  // The worker holds the row and its lease has not ended.
  predicate HoldsLive(db: Db, worker: Worker, job: JobId) {
    && job < |db.jobs| && db.jobs[job].status == Processing && db.jobs[job].lockedBy == Some(worker)
    && db.jobs[job].leaseExpiresAt.Some? && db.now < db.jobs[job].leaseExpiresAt.value
  }

  // A row in processing is its holder's until the moment its lease ends, and from that moment on it may be
  // reclaimed or given up: never both, never neither.
  lemma LeaseDecides(db: Db, job: JobId)
    requires QueueShape(db) && job < |db.jobs| && db.jobs[job].status == Processing
    ensures db.jobs[job].lockedBy.Some?
    ensures Owns(db, db.jobs[job].lockedBy.value, job)
            <==> !(MayBeHandedOut(db.jobs[job], db.now) || SpentAndEnded(db.jobs[job], db.now))
    ensures forall worker :: Owns(db, worker, job) <==> HoldsLive(db, worker, job)
  {
    assert RowShape(db.jobs[job]);
  }

  // ---------- Settling and renewing ----------

  ghost predicate OnlyRow(db: Db, after: Db, job: JobId) {
    && after.now == db.now && after.runs == db.runs && |after.jobs| == |db.jobs|
    && forall k :: 0 <= k < |db.jobs| && k != job ==> after.jobs[k] == db.jobs[k]
  }

  // Released with the run it was settled with; what is settled keeps its identity, attempts and schedule.
  ghost predicate LetGo(a: Job, b: Job, run: Option<RunId>) {
    && b.lockedAt.None? && b.lockedBy.None? && b.leaseExpiresAt.None? && b.lastScanRun == run
    && b.tenant == a.tenant && b.address == a.address && b.chain == a.chain && b.createdAt == a.createdAt
    && b.attemptCount == a.attemptCount && b.maxAttempts == a.maxAttempts && b.retryOf == a.retryOf
  }

  lemma MarkEffect(db: Db, op: Op)
    requires IsMark(op) && HoldsLive(db, op.worker, op.job) && (op.run.Some? ==> op.run.value < |db.runs|)
    ensures var after := Apply(db, op);
            && OnlyRow(db, after, op.job) && LetGo(db.jobs[op.job], after.jobs[op.job], op.run)
            && (var j := after.jobs[op.job];
                && (op.MarkSucceeded? ==> j.status == Succeeded && j.succeededAt == Some(db.now) && j.lastError.None?)
                && (op.MarkRetryable? ==> j.status == Retryable && j.nextAttemptAt == op.nextAttemptAt
                                          && j.lastError == Some(op.error))
                && (op.MarkDeadLetter? ==> j.status == DeadLetter && j.deadLetteredAt == Some(db.now)
                                           && j.lastError == Some(op.error)))
  {
  }

  // For anybody but the live holder, or with a scan run that does not exist, a mark changes nothing.
  lemma MarkRefused(db: Db, op: Op)
    requires IsMark(op) && !(HoldsLive(db, op.worker, op.job) && (op.run.Some? ==> op.run.value < |db.runs|))
    ensures Apply(db, op) == db
  {
  }

  lemma RenewEffect(db: Db, op: Op)
    requires op.Renew?
    ensures var after := Apply(db, op);
            if HoldsLive(db, op.worker, op.job) then
              && OnlyRow(db, after, op.job)
              && after.jobs[op.job] == db.jobs[op.job].(lockedAt := Some(db.now),
                  leaseExpiresAt := Some(db.now + op.ttl))
            else after == db
  {
  }

  // A live holder's scan run is opened as running and becomes the job's latest; nobody else opens one.
  lemma InsertRunEffect(db: Db, op: Op)
    requires op.InsertRun?
    ensures var after := Apply(db, op);
            if HoldsLive(db, op.worker, op.job) then
              && |after.runs| == |db.runs| + 1 && after.runs[..|db.runs|] == db.runs
              && (var run := after.runs[|db.runs|];
                  && run.task == op.job && run.status == Running && run.startedAt == op.startedAt
                  && run.finishedAt.None? && run.errorMessage.None? && !run.reclaimed)
              && OnlyRow(db, after.(runs := db.runs), op.job)
              && after.jobs[op.job] == db.jobs[op.job].(lastScanRun := Some(|db.runs|))
            else after == db
  {
  }
}
