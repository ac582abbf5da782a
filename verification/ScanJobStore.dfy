/** The two tables as an object whose statements update rows in place, each proved against the
    operation of the queue it stands for. */
module ScanJobStore {
  import opened Wrappers
  import opened ScanJobs
  import opened ScanJobRuns

  function BuryExhausted(db: Db): (jobs: seq<Job>)
    ensures |jobs| == |db.jobs|
  {
    seq(|db.jobs|, i requires 0 <= i < |db.jobs| =>
      if Exhausted(db.jobs[i], db.now) then Buried(db.jobs[i], db.now) else db.jobs[i])
  }

  function CloseBuried(db: Db): (runs: seq<ScanRun>)
    ensures |runs| == |db.runs|
  {
    seq(|db.runs|, r requires 0 <= r < |db.runs| =>
      if db.runs[r].status == Running && PointedByExhausted(db, r)
      then Closed(db.runs[r], db.now, EXPIRED_EXHAUSTED) else db.runs[r])
  }

  function CloseRun(runs: seq<ScanRun>, run: Option<RunId>, now: int): seq<ScanRun> {
    if run.Some? && run.value < |runs| && runs[run.value].status == Running
    then runs[run.value := Closed(runs[run.value], now, EXPIRED_RECLAIMED)] else runs
  }

  // One after the other the parts of the claim do to the tables what the claim does to one snapshot.
  lemma ClaimSteps(db: Db, worker: Worker, ttl: nat, skipped: set<JobId>, pick: Option<JobId>)
    requires LegalPick(db, skipped, pick)
    ensures var jobs := BuryExhausted(db); var runs := CloseBuried(db);
            ClaimResult(db, worker, ttl, pick) ==
            if pick.None? then db.(jobs := jobs, runs := runs)
            else db.(jobs := jobs[pick.value := Leased(jobs[pick.value], worker, db.now, ttl)],
                     runs := CloseRun(runs, db.jobs[pick.value].lastScanRun, db.now))
  {
    ClaimStepsOnRuns(db, worker, ttl, pick);
    var after := ClaimResult(db, worker, ttl, pick).jobs;
    var jobs := BuryExhausted(db);
    if pick.Some? {
      assert after == jobs[pick.value := Leased(jobs[pick.value], worker, db.now, ttl)];
    } else {
      assert after == jobs;
    }
  }

  lemma ClaimStepsOnRuns(db: Db, worker: Worker, ttl: nat, pick: Option<JobId>)
    requires pick.Some? ==> pick.value < |db.jobs|
    ensures ClaimResult(db, worker, ttl, pick).runs ==
            if pick.None? then CloseBuried(db) else CloseRun(CloseBuried(db), db.jobs[pick.value].lastScanRun, db.now)
  {
    var after := ClaimResult(db, worker, ttl, pick).runs;
    var steps := if pick.None? then CloseBuried(db)
                 else CloseRun(CloseBuried(db), db.jobs[pick.value].lastScanRun, db.now);
    forall r | 0 <= r < |db.runs| ensures after[r] == steps[r] {
      assert after[r] == ClaimedRun(db, pick, r);
    }
  }

  // ORDER BY ... LIMIT 1 FOR UPDATE SKIP LOCKED over the snapshot.
  method PickDue(db: Db, skipped: set<JobId>) returns (pick: Option<JobId>)
    ensures LegalPick(db, skipped, pick)
  {
    pick := None;
    for i := 0 to |db.jobs|
      invariant pick.Some? ==> pick.value < i && Candidate(db, skipped, pick.value)
                               && forall j :: 0 <= j < i && Candidate(db, skipped, j) ==>
                                   KeyLe(db.jobs[pick.value], db.jobs[j])
      invariant pick.None? ==> forall j :: 0 <= j < i ==> !Candidate(db, skipped, j)
    {
      if Candidate(db, skipped, i) && (pick.None? || !KeyLe(db.jobs[pick.value], db.jobs[i])) {
        pick := Some(i);
      }
    }
  }

  class Store {
    var now: int
    var jobs: seq<Job>
    var runs: seq<ScanRun>

    ghost function Contents(): Db reads this { Db(now, jobs, runs) }

    constructor (start: int)
      ensures Contents() == Db(start, [], [])
    {
      now, jobs, runs := start, [], [];
    }

    method Elapse(seconds: nat)
      modifies this
      ensures Contents() == Apply(old(Contents()), Tick(seconds))
    {
      now := now + seconds;
    }

    // ON CONFLICT DO NOTHING: a row is returned exactly when the address had no active job.
    method InsertScheduled(tenant: nat, address: nat, chain: nat, maxAttempts: int, nextAttemptAt: int)
      returns (inserted: Option<JobId>)
      modifies this
      ensures Contents() == Apply(old(Contents()), Schedule(tenant, address, chain, maxAttempts, nextAttemptAt))
      ensures inserted.Some? <==>
                (forall i :: 0 <= i < |old(jobs)| ==> !(Active(old(jobs)[i]) && old(jobs)[i].address == address))
      ensures inserted.Some? ==> inserted.value == |old(jobs)| < |jobs| && jobs[inserted.value].address == address
                                 && jobs[inserted.value].attemptCount == 0
                                     && jobs[inserted.value].maxAttempts == maxAttempts
                                 && forall t :: Due(jobs[inserted.value], t) <==> nextAttemptAt <= t
      ensures inserted.None? ==> Contents() == old(Contents())
    {
      if ActiveJob(jobs, address).Some? {
        return None;
      }
      inserted := Some(|jobs|);
      jobs := jobs + [NewJob(Db(now, jobs, runs), tenant, address, chain, maxAttempts, nextAttemptAt, None)];
    }

    // ON CONFLICT DO UPDATE: a waiting job of the address is reused, a processing one refuses the retry, and so does
    // the foreign key of a scan run that does not exist.
    method InsertRetry(tenant: nat, address: nat, chain: nat, retryOf: RunId, maxAttempts: int, nextAttemptAt: int)
      returns (job: Option<JobId>)
      modifies this
      ensures Contents() == Apply(old(Contents()), Retry(tenant, address, chain, maxAttempts, nextAttemptAt, retryOf))
      ensures job.None? ==> Contents() == old(Contents())
      ensures job.None? <==> retryOf >= |runs| || (exists i :: 0 <= i < |old(jobs)| && old(jobs)[i].status == Processing
                                                               && ActiveJob(old(jobs), address) == Some(i))
      ensures job.Some? ==> job.value < |jobs| && jobs[job.value].status == Pending
                            && jobs[job.value].address == address && jobs[job.value].retryOf == Some(retryOf)
                            && jobs[job.value].maxAttempts == maxAttempts && jobs[job.value].lastError.None?
                            && forall t :: Due(jobs[job.value], t) <==> nextAttemptAt <= t
      ensures job.Some? && job.value < |old(jobs)| ==> jobs[job.value].attemptCount == old(jobs)[job.value].attemptCount
    {
      if retryOf >= |runs| {
        return None;
      }
      match ActiveJob(jobs, address)
      case None =>
        job := Some(|jobs|);
        jobs := jobs + [NewJob(Db(now, jobs, runs), tenant, address, chain, maxAttempts, nextAttemptAt, Some(retryOf))];
      case Some(i) =>
        if !Waiting(jobs[i]) {
          assert jobs[i].status == Processing;
          return None;
        }
        job := Some(i);
        jobs := jobs[i := jobs[i].(status := Pending, maxAttempts := maxAttempts, nextAttemptAt := nextAttemptAt,
                                   retryOf := Some(retryOf), lastError := None)];
    }

    // The claim runs its common table expressions one after the other; the result is the
    // statement's simultaneous effect on one snapshot, and the row returned is a least candidate.
    method ClaimDue(worker: Worker, ttl: nat, skipped: set<JobId>) returns (claimed: Option<JobId>)
      modifies this
      ensures LegalPick(old(Contents()), skipped, claimed)
      ensures Contents() == Apply(old(Contents()), Claim(worker, ttl, skipped, claimed))
      ensures claimed.Some? <==> HasCandidate(old(Contents()), skipped)
      ensures claimed.Some? ==> claimed.value < |jobs| && jobs[claimed.value].lockedBy == Some(worker)
                                && jobs[claimed.value].attemptCount == old(jobs)[claimed.value].attemptCount + 1
    {
      var snapshot := Db(now, jobs, runs);
      ClaimAlwaysAnswers(snapshot, skipped);

      // dead_lettered, dead_lettered_runs
      jobs := BuryExhausted(snapshot);
      runs := CloseBuried(snapshot);

      // due, reclaimed_runs, and the final update
      claimed := PickDue(snapshot, skipped);
      if claimed.Some? {
        runs := CloseRun(runs, snapshot.jobs[claimed.value].lastScanRun, snapshot.now);
        jobs := jobs[claimed.value := Leased(jobs[claimed.value], worker, snapshot.now, ttl)];
      }
      ClaimSteps(snapshot, worker, ttl, skipped, claimed);
    }

    method Renew(job: JobId, worker: Worker, ttl: nat) returns (renewed: bool)
      modifies this`jobs
      ensures Contents() == Apply(old(Contents()), ScanJobs.Renew(worker, job, ttl))
      ensures renewed == Owns(old(Contents()), worker, job)
      ensures renewed && ttl > 0 ==> Owns(Contents(), worker, job) && jobs[job].leaseExpiresAt == Some(now + ttl)
    {
      renewed := job < |jobs| && LiveOwner(jobs[job], worker, now);
      if renewed {
        jobs := jobs[job := jobs[job].(lockedAt := Some(now), leaseExpiresAt := Some(now + ttl))];
      }
    }

    // The three marks fail (`false`) exactly when the caller no longer owns the job or names a scan run
    // that does not exist, and after a mark that took effect the caller no longer owns the job.
    method MarkSucceeded(job: JobId, worker: Worker, run: Option<RunId>) returns (marked: bool)
      modifies this`jobs
      ensures Contents() == Apply(old(Contents()), ScanJobs.MarkSucceeded(worker, job, run))
      ensures marked == (Owns(old(Contents()), worker, job) && RunExists(old(Contents()), run))
      ensures marked ==> jobs[job].status == Succeeded && jobs[job].succeededAt == Some(now)
                         && jobs[job].lastError.None?
                         && jobs[job].lastScanRun == run && !Owns(Contents(), worker, job)
    {
      marked := job < |jobs| && LiveOwner(jobs[job], worker, now) && (run.Some? ==> run.value < |runs|);
      if marked {
        jobs := jobs[job := jobs[job].(status := Succeeded, lastError := None, lastScanRun := run,
                                       succeededAt := Some(now), lockedAt := None, lockedBy := None,
                                           leaseExpiresAt := None)];
      }
    }

    method MarkRetryable(job: JobId, worker: Worker, nextAttemptAt: int, error: string, run: Option<RunId>)
      returns (marked: bool)
      modifies this`jobs
      ensures Contents() == Apply(old(Contents()), ScanJobs.MarkRetryable(worker, job, nextAttemptAt, error, run))
      ensures marked == (Owns(old(Contents()), worker, job) && RunExists(old(Contents()), run))
      ensures marked ==> jobs[job].status == Retryable && jobs[job].lastError == Some(error)
                         && jobs[job].lastScanRun == run && !Owns(Contents(), worker, job)
                         && (Due(jobs[job], now) <==> nextAttemptAt <= now)
    {
      marked := job < |jobs| && LiveOwner(jobs[job], worker, now) && (run.Some? ==> run.value < |runs|);
      if marked {
        jobs := jobs[job := jobs[job].(status := Retryable, nextAttemptAt := nextAttemptAt, lastError := Some(error),
                                       lastScanRun := run, lockedAt := None, lockedBy := None, leaseExpiresAt := None)];
      }
    }

    method MarkDeadLetter(job: JobId, worker: Worker, error: string, run: Option<RunId>) returns (marked: bool)
      modifies this`jobs
      ensures Contents() == Apply(old(Contents()), ScanJobs.MarkDeadLetter(worker, job, error, run))
      ensures marked == (Owns(old(Contents()), worker, job) && RunExists(old(Contents()), run))
      ensures marked ==> jobs[job].status == DeadLetter && jobs[job].deadLetteredAt == Some(now)
                         && jobs[job].lastError == Some(error)
                         && jobs[job].lastScanRun == run && !Owns(Contents(), worker, job)
    {
      marked := job < |jobs| && LiveOwner(jobs[job], worker, now) && (run.Some? ==> run.value < |runs|);
      if marked {
        jobs := jobs[job := jobs[job].(status := DeadLetter, lastError := Some(error), lastScanRun := run,
                                       deadLetteredAt := Some(now), lockedAt := None, lockedBy := None,
                                           leaseExpiresAt := None)];
      }
    }

    // A scan run is opened, and linked, only for a live owner.
    method InsertScanRun(job: JobId, worker: Worker, startedAt: int) returns (run: Option<RunId>)
      modifies this`jobs, this`runs
      ensures Contents() == Apply(old(Contents()), InsertRun(worker, job, startedAt))
      ensures run.Some? <==> Owns(old(Contents()), worker, job)
      ensures run.Some? ==> run.value == |old(runs)| < |runs| && runs[run.value].status == Running
                            && runs[run.value].task == job && jobs[job].lastScanRun == run
    {
      run := None;
      if job < |jobs| && LiveOwner(jobs[job], worker, now) {
        run := Some(|runs|);
        runs := runs + [ScanRun(job, Running, startedAt, None, None, false)];
        jobs := jobs[job := jobs[job].(lastScanRun := run)];
      }
    }

    // Closing is for that run only: it keeps its job and start, and whoever points at it sees it closed.
    method FinishScanRun(run: RunId, status: RunStatus, finishedAt: int, message: Option<string>)
      modifies this`runs
      ensures |runs| == |old(runs)| && forall r :: 0 <= r < |runs| && r != run ==> runs[r] == old(runs)[r]
      ensures run < |runs| ==> runs[run].status == status && runs[run].finishedAt == Some(finishedAt)
                               && runs[run].errorMessage == message
      ensures run < |runs| ==> runs[run].task == old(runs)[run].task && runs[run].startedAt == old(runs)[run].startedAt
                               && (status != Running ==> runs[run].status != Running)
      ensures Contents() == Apply(old(Contents()), FinishRun(run, status, finishedAt, message))
    {
      if run < |runs| {
        runs := runs[run := runs[run].(status := status, finishedAt := Some(finishedAt), errorMessage := message)];
      }
    }
  }
}
