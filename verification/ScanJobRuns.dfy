/** What every interleaving of the queue's statements keeps. Nothing here restricts who
    calls a statement or with which arguments. */
module ScanJobRuns {
  import opened Wrappers
  import opened ScanJobs

  // ---------- Shape ----------

  ghost predicate OneActivePerAddress(jobs: seq<Job>) {
    forall i, j :: 0 <= i < j < |jobs| && Active(jobs[i]) && Active(jobs[j]) ==> jobs[i].address != jobs[j].address
  }

  predicate RowShape(j: Job) {
    && (j.status == Processing <==> j.lockedBy.Some?)
    && (j.status == Processing <==> j.lockedAt.Some?)
    && (j.status == Processing <==> j.leaseExpiresAt.Some?)
    && (j.status == Processing ==> j.attemptCount >= 1)
    && (j.status == Succeeded <==> j.succeededAt.Some?)
    && (j.status == DeadLetter <==> j.deadLetteredAt.Some?)
  }

  ghost predicate RowsShaped(db: Db) {
    forall i :: 0 <= i < |db.jobs| ==> RowShape(db.jobs[i]) && RunExists(db, db.jobs[i].lastScanRun)
  }

  ghost predicate QueueShape(db: Db) {
    OneActivePerAddress(db.jobs) && RowsShaped(db)
  }

  // No statement makes an existing row active, and a row is inserted only for an idle address.
  lemma StepActivates(db: Db, op: Op)
    ensures |db.jobs| <= |Apply(db, op).jobs| <= |db.jobs| + 1
    ensures forall i :: 0 <= i < |db.jobs| ==>
              && Apply(db, op).jobs[i].address == db.jobs[i].address
              && (Active(Apply(db, op).jobs[i]) ==> Active(db.jobs[i]))
    ensures |Apply(db, op).jobs| > |db.jobs| ==>
              ActiveJob(db.jobs, Apply(db, op).jobs[|db.jobs|].address).None?
  {
  }

  lemma ClaimKeepsRows(db: Db, worker: Worker, ttl: nat, pick: Option<JobId>, i: nat)
    requires i < |db.jobs| && RowShape(db.jobs[i]) && (pick == Some(i) ==> Due(db.jobs[i], db.now))
    ensures RowShape(ClaimedJob(db, worker, ttl, pick, i))
    ensures ClaimedJob(db, worker, ttl, pick, i).lastScanRun == db.jobs[i].lastScanRun
  {
  }

  lemma ClaimKeepsAllRows(db: Db, worker: Worker, ttl: nat, skipped: set<JobId>, pick: Option<JobId>)
    requires RowsShaped(db) && LegalPick(db, skipped, pick)
    ensures RowsShaped(ClaimResult(db, worker, ttl, pick))
  {
    hide RowShape, ClaimedJob;
    var after := ClaimResult(db, worker, ttl, pick);
    forall i | 0 <= i < |after.jobs| ensures RowShape(after.jobs[i]) && RunExists(after, after.jobs[i].lastScanRun) {
      ClaimKeepsRows(db, worker, ttl, pick, i);
    }
  }

  lemma StepKeepsRows(db: Db, op: Op)
    requires RowsShaped(db)
    ensures RowsShaped(Apply(db, op))
  {
    hide ClaimResult;
    if op.Claim? && LegalPick(db, op.skipped, op.pick) {
      ClaimKeepsAllRows(db, op.worker, op.ttl, op.skipped, op.pick);
    }
  }

  lemma StepKeepsShape(db: Db, op: Op)
    requires QueueShape(db)
    ensures QueueShape(Apply(db, op))
  {
    hide Apply, RowShape, Active;
    StepActivates(db, op);
    StepKeepsRows(db, op);
  }

  // From an empty queue every reachable state has the shape.
  lemma {:induction false} ShapeAlways(start: int, ops: seq<Op>, k: nat)
    requires k <= |ops|
    ensures QueueShape(At(Db(start, [], []), ops, k))
  {
    if k > 0 {
      ShapeAlways(start, ops, k - 1);
      StepKeepsShape(At(Db(start, [], []), ops, k - 1), ops[k - 1]);
    }
  }

  // ---------- Rows only move forward ----------

  // What any later state may have made of a row.
  predicate Evolved(a: Job, b: Job) {
    && a.tenant == b.tenant && a.address == b.address && a.chain == b.chain && a.createdAt == b.createdAt
    && a.attemptCount <= b.attemptCount
    && (Terminal(a) ==> a == b)
  }

  ghost predicate DbEvolved(a: Db, b: Db) {
    && a.now <= b.now && |a.jobs| <= |b.jobs| && |a.runs| <= |b.runs|
    && forall i :: 0 <= i < |a.jobs| ==> Evolved(a.jobs[i], b.jobs[i])
  }

  lemma StepEvolves(db: Db, op: Op)
    ensures DbEvolved(db, Apply(db, op))
  {
  }

  // The clock never runs back, no row is lost, identities and settled rows never change,
  // attempt counts never fall.
  lemma {:induction false} RowsOnlyEvolve(db: Db, ops: seq<Op>, k1: nat, k2: nat)
    requires k1 <= k2 <= |ops|
    ensures DbEvolved(At(db, ops, k1), At(db, ops, k2))
  {
    if k1 < k2 {
      RowsOnlyEvolve(db, ops, k1, k2 - 1);
      StepEvolves(At(db, ops, k2 - 1), ops[k2 - 1]);
    }
  }

  // ---------- Lease fencing ----------

  predicate ClaimsJob(op: Op, worker: Worker, job: JobId) {
    op.Claim? && op.worker == worker && op.pick == Some(job)
  }

  lemma StepKeepsLapsed(db: Db, op: Op, worker: Worker, job: JobId)
    requires job < |db.jobs| && !LiveOwner(db.jobs[job], worker, db.now)
    requires !ClaimsJob(op, worker, job)
    ensures job < |Apply(db, op).jobs|
    ensures !LiveOwner(Apply(db, op).jobs[job], worker, Apply(db, op).now)
  {
  }

  lemma {:induction false} LapsedUntilReclaimed(db: Db, ops: seq<Op>, worker: Worker, job: JobId, k1: nat, k2: nat)
    requires k1 <= k2 <= |ops|
    requires job < |At(db, ops, k1).jobs|
    requires !LiveOwner(At(db, ops, k1).jobs[job], worker, At(db, ops, k1).now)
    requires forall k :: k1 <= k < k2 ==> !ClaimsJob(ops[k], worker, job)
    ensures job < |At(db, ops, k2).jobs|
    ensures !LiveOwner(At(db, ops, k2).jobs[job], worker, At(db, ops, k2).now)
  {
    if k1 < k2 {
      LapsedUntilReclaimed(db, ops, worker, job, k1, k2 - 1);
      StepKeepsLapsed(At(db, ops, k2 - 1), ops[k2 - 1], worker, job);
    }
  }

  // From the moment a worker's lease on a job has lapsed until the same worker claims the job
  // again, none of its renew, link or mark calls changes anything.
  lemma LeaseFencing(db: Db, ops: seq<Op>, worker: Worker, job: JobId, lapsed: nat, call: nat)
    requires lapsed <= call < |ops|
    requires job < |At(db, ops, lapsed).jobs|
    requires !LiveOwner(At(db, ops, lapsed).jobs[job], worker, At(db, ops, lapsed).now)
    requires forall k :: lapsed <= k < call ==> !ClaimsJob(ops[k], worker, job)
    requires IsOwnerCall(ops[call], worker, job)
    ensures At(db, ops, call + 1) == At(db, ops, call)
  {
    LapsedUntilReclaimed(db, ops, worker, job, lapsed, call);
  }

  // ---------- Lease protection ----------

  // The row is held by the worker for this attempt at least until `until`.
  predicate HeldUntil(j: Job, worker: Worker, attempt: nat, until: int) {
    && j.status == Processing && j.lockedBy == Some(worker) && j.attemptCount == attempt
    && j.leaseExpiresAt.Some? && j.leaseExpiresAt.value >= until
  }

  // The holder gives the row up, or shortens its own lease below `until`.
  predicate Yields(db: Db, op: Op, worker: Worker, job: JobId, until: int) {
    && IsOwnerCall(op, worker, job)
    && (IsMark(op) || (op.Renew? && db.now + op.ttl < until))
  }

  lemma StepKeepsHeld(db: Db, op: Op, worker: Worker, job: JobId, attempt: nat, until: int)
    requires job < |db.jobs| && HeldUntil(db.jobs[job], worker, attempt, until) && db.now < until
    requires !Yields(db, op, worker, job, until)
    ensures job < |Apply(db, op).jobs| && HeldUntil(Apply(db, op).jobs[job], worker, attempt, until)
  {
  }

  // Until its lease ends a worker that does not yield keeps its claim whatever everybody else does:
  // its calls still match the row, and nobody else is handed the job.
  lemma {:induction false} LeaseProtects(db: Db, ops: seq<Op>, worker: Worker, job: JobId, until: int, k1: nat, k2: nat)
    requires k1 <= k2 <= |ops|
    requires job < |At(db, ops, k1).jobs| && LiveOwner(At(db, ops, k1).jobs[job], worker, At(db, ops, k1).now)
    requires until == At(db, ops, k1).jobs[job].leaseExpiresAt.value
    requires forall k :: k1 <= k < k2 ==> !Yields(At(db, ops, k), ops[k], worker, job, until)
    requires At(db, ops, k2).now < until
    ensures job < |At(db, ops, k2).jobs|
    ensures HeldUntil(At(db, ops, k2).jobs[job], worker, At(db, ops, k1).jobs[job].attemptCount, until)
    ensures Owns(At(db, ops, k2), worker, job)
    ensures forall skipped :: !Candidate(At(db, ops, k2), skipped, job)
  {
    if k1 < k2 {
      RowsOnlyEvolve(db, ops, k2 - 1, k2);
      LeaseProtects(db, ops, worker, job, until, k1, k2 - 1);
      StepKeepsHeld(At(db, ops, k2 - 1), ops[k2 - 1], worker, job,
                    At(db, ops, k1).jobs[job].attemptCount, until);
    }
  }

  // ---------- Each claim is settled at most once ----------

  // The operation is a mark statement that matched the row of `job`.
  ghost predicate Settles(db: Db, op: Op, job: JobId) {
    IsMark(op) && op.job == job && Owns(db, op.worker, job) && RunExists(db, op.run)
  }

  ghost predicate PastAttempt(db: Db, job: JobId, attempt: nat) {
    && job < |db.jobs|
    && (|| db.jobs[job].attemptCount > attempt
        || (db.jobs[job].attemptCount == attempt && db.jobs[job].status != Processing))
  }

  lemma StepKeepsPastAttempt(db: Db, op: Op, job: JobId, attempt: nat)
    requires PastAttempt(db, job, attempt)
    ensures PastAttempt(Apply(db, op), job, attempt)
  {
  }

  lemma {:induction false} PastAttemptStays(db: Db, ops: seq<Op>, job: JobId, attempt: nat, k1: nat, k2: nat)
    requires k1 <= k2 <= |ops| && PastAttempt(At(db, ops, k1), job, attempt)
    ensures PastAttempt(At(db, ops, k2), job, attempt)
  {
    if k1 < k2 {
      PastAttemptStays(db, ops, job, attempt, k1, k2 - 1);
      StepKeepsPastAttempt(At(db, ops, k2 - 1), ops[k2 - 1], job, attempt);
    }
  }

  // Two mark statements that both took effect on a job settled different claims of it.
  lemma SettledAtMostOnce(db: Db, ops: seq<Op>, job: JobId, k1: nat, k2: nat)
    requires k1 < k2 < |ops|
    requires Settles(At(db, ops, k1), ops[k1], job) && Settles(At(db, ops, k2), ops[k2], job)
    ensures At(db, ops, k1).jobs[job].attemptCount < At(db, ops, k2).jobs[job].attemptCount
  {
    PastAttemptStays(db, ops, job, At(db, ops, k1).jobs[job].attemptCount, k1 + 1, k2);
  }

  // ---------- Claim order ----------

  predicate HasCandidate(db: Db, skipped: set<JobId>) {
    exists i :: 0 <= i < |db.jobs| && Candidate(db, skipped, i)
  }

  // The least candidate among the first n rows.
  lemma {:induction false} LeastCandidate(db: Db, skipped: set<JobId>, n: nat) returns (pick: Option<JobId>)
    requires n <= |db.jobs|
    ensures pick.Some? ==> pick.value < n && Candidate(db, skipped, pick.value)
                           && forall i :: 0 <= i < n && Candidate(db, skipped, i) ==>
                               KeyLe(db.jobs[pick.value], db.jobs[i])
    ensures pick.None? ==> forall i :: 0 <= i < n ==> !Candidate(db, skipped, i)
  {
    if n == 0 {
      pick := None;
    } else {
      pick := LeastCandidate(db, skipped, n - 1);
      if Candidate(db, skipped, n - 1) && (pick.None? || !KeyLe(db.jobs[pick.value], db.jobs[n - 1])) {
        pick := Some(n - 1);
      }
    }
  }

  // A claim always has an answer, and it is a row exactly when some unskipped row is due.
  lemma ClaimAlwaysAnswers(db: Db, skipped: set<JobId>)
    ensures exists pick :: LegalPick(db, skipped, pick)
    ensures forall pick :: LegalPick(db, skipped, pick) ==> (pick.Some? <==> HasCandidate(db, skipped))
  {
    var pick := LeastCandidate(db, skipped, |db.jobs|);
    assert LegalPick(db, skipped, pick);
  }

  // The claim's effect, read off the table: the row handed out is leased to the caller and cannot
  // be claimed again before the lease ends, every exhausted expired row is dead-lettered,
  // every other row is untouched, and no row handed out or dead-lettered still points
  // at a running scan run.
  lemma ClaimEffect(db: Db, worker: Worker, ttl: nat, skipped: set<JobId>, pick: Option<JobId>)
    requires LegalPick(db, skipped, pick)
    ensures var after := Apply(db, Claim(worker, ttl, skipped, pick));
            && after.now == db.now && |after.jobs| == |db.jobs| && |after.runs| == |db.runs|
            && (pick.Some? ==>
                  && LiveOwner(after.jobs[pick.value], worker, db.now) == (ttl > 0)
                  && !Due(after.jobs[pick.value], db.now + ttl - 1)
                  && after.jobs[pick.value].attemptCount == db.jobs[pick.value].attemptCount + 1)
            && (forall i :: 0 <= i < |db.jobs| && Exhausted(db.jobs[i], db.now) ==> after.jobs[i].status == DeadLetter)
            && (forall i :: 0 <= i < |db.jobs| && !Exhausted(db.jobs[i], db.now) && pick != Some(i)
                  ==> after.jobs[i] == db.jobs[i])
            && (forall i :: 0 <= i < |db.jobs| && (Exhausted(db.jobs[i], db.now) || pick == Some(i))
                            && after.jobs[i].lastScanRun.Some? && after.jobs[i].lastScanRun.value < |after.runs|
                  ==> after.runs[after.jobs[i].lastScanRun.value].status != Running)
            && (forall r :: 0 <= r < |db.runs| && after.runs[r] != db.runs[r]
                  ==> && db.runs[r].status == Running && after.runs[r].status == Failed && after.runs[r].reclaimed
                      && exists i :: 0 <= i < |db.jobs| && db.jobs[i].lastScanRun == Some(r)
                                     && (Exhausted(db.jobs[i], db.now) || pick == Some(i)))
  {
  }

  // ---------- Draining the queue ----------

  // The rows a claim that finds these rows locked may take.
  function Candidates(db: Db, skipped: set<JobId>): set<JobId> {
    set i | 0 <= i < |db.jobs| && Candidate(db, skipped, i)
  }

  // Claims only, at one instant, each with a lease and each handing out a row.
  ghost predicate Drains(db: Db, ops: seq<Op>, skipped: set<JobId>) {
    forall k :: 0 <= k < |ops| ==>
      && ops[k].Claim? && ops[k].ttl > 0 && ops[k].skipped == skipped && ops[k].pick.Some?
      && LegalPick(At(db, ops, k), skipped, ops[k].pick)
  }

  // What is left to hand out, as it was in the beginning.
  ghost predicate Remains(db: Db, after: Db, skipped: set<JobId>) {
    && after.now == db.now && |after.jobs| == |db.jobs| && Candidates(after, skipped) <= Candidates(db, skipped)
    && forall i :: i in Candidates(after, skipped) ==> after.jobs[i] == db.jobs[i]
  }

  lemma ClaimRemoves(db: Db, op: Op, skipped: set<JobId>)
    requires op.Claim? && op.ttl > 0 && op.skipped == skipped && op.pick.Some? && LegalPick(db, skipped, op.pick)
    ensures op.pick.value in Candidates(db, skipped)
    ensures Candidates(Apply(db, op), skipped) == Candidates(db, skipped) - {op.pick.value}
    ensures Remains(db, Apply(db, op), skipped)
  {
    var after := ClaimResult(db, op.worker, op.ttl, op.pick);
    forall i | 0 <= i < |db.jobs|
      ensures Candidate(after, skipped, i) <==> Candidate(db, skipped, i) && i != op.pick.value
      ensures Candidate(after, skipped, i) ==> after.jobs[i] == db.jobs[i]
    {
      assert after.jobs[i] == ClaimedJob(db, op.worker, op.ttl, op.pick, i);
    }
  }

  // Any number of claims made at one instant hand out distinct rows, and each claim takes one away from those still
  // due: after as many claims as rows were due, nothing is.
  lemma {:induction false} ClaimsDrain(db: Db, ops: seq<Op>, skipped: set<JobId>, k: nat)
    requires Drains(db, ops, skipped) && k <= |ops|
    ensures Remains(db, At(db, ops, k), skipped)
    ensures |Candidates(At(db, ops, k), skipped)| + k == |Candidates(db, skipped)|
    ensures forall j :: 0 <= j < k ==> ops[j].pick.value !in Candidates(At(db, ops, k), skipped)
  {
    hide Apply, Candidates, LegalPick;
    if k > 0 {
      ClaimsDrain(db, ops, skipped, k - 1);
      ClaimRemoves(At(db, ops, k - 1), ops[k - 1], skipped);
    }
  }

  // They hand the rows out in the order of the table they started from, never the same row twice.
  lemma ClaimsInOrder(db: Db, ops: seq<Op>, skipped: set<JobId>, i: nat, j: nat)
    requires Drains(db, ops, skipped) && i < j < |ops|
    ensures ops[i].pick.value < |db.jobs| && ops[j].pick.value < |db.jobs| && ops[i].pick != ops[j].pick
    ensures KeyLe(db.jobs[ops[i].pick.value], db.jobs[ops[j].pick.value])
  {
    hide Apply, KeyLe, Candidate;
    ClaimsDrain(db, ops, skipped, i);
    ClaimsDrain(db, ops, skipped, j);
    StillThere(db, ops, skipped, i, j);
    ClaimRemoves(At(db, ops, j), ops[j], skipped);
    ClaimRemoves(At(db, ops, i), ops[i], skipped);
  }

  // A row handed out later was there to be handed out before.
  lemma {:induction false} StillThere(db: Db, ops: seq<Op>, skipped: set<JobId>, i: nat, j: nat)
    requires Drains(db, ops, skipped) && i <= j <= |ops|
    ensures Candidates(At(db, ops, j), skipped) <= Candidates(At(db, ops, i), skipped)
    ensures i < j ==> ops[i].pick.value !in Candidates(At(db, ops, j), skipped)
  {
    hide Apply, Candidates, LegalPick;
    if i < j {
      StillThere(db, ops, skipped, i, j - 1);
      ClaimRemoves(At(db, ops, j - 1), ops[j - 1], skipped);
    }
  }

  // After as many claims as rows were due, nobody's row being locked, no row is due.
  lemma DrainedIsEmpty(db: Db, ops: seq<Op>)
    requires Drains(db, ops, {}) && |ops| >= |Candidates(db, {})|
    ensures |ops| == |Candidates(db, {})|
    ensures forall i :: 0 <= i < |At(db, ops, |ops|).jobs| ==> !Due(At(db, ops, |ops|).jobs[i], At(db, ops, |ops|).now)
  {
    hide Apply;
    ClaimsDrain(db, ops, {}, |ops|);
    var after := At(db, ops, |ops|);
    assert Candidates(after, {}) == {};
    forall i | 0 <= i < |after.jobs| ensures !Due(after.jobs[i], after.now) {
      assert i in Candidates(after, {}) <==> Candidate(after, {}, i);
    }
  }

  // ---------- Back-off ----------

  // A step that may touch a waiting row: claiming it, or a manual retry of its address.
  predicate Disturbs(op: Op, job: JobId, address: nat) {
    (op.Claim? && op.pick == Some(job)) || (op.Retry? && op.address == address)
  }

  lemma StepKeepsWaiting(db: Db, op: Op, job: JobId)
    requires job < |db.jobs| && Waiting(db.jobs[job])
    requires !Disturbs(op, job, db.jobs[job].address)
    ensures job < |Apply(db, op).jobs| && Apply(db, op).jobs[job] == db.jobs[job]
  {
  }

  lemma {:induction false} WaitingUntouched(db: Db, ops: seq<Op>, job: JobId, k1: nat, k2: nat)
    requires k1 <= k2 <= |ops|
    requires job < |At(db, ops, k1).jobs| && Waiting(At(db, ops, k1).jobs[job])
    requires forall k :: k1 <= k < k2 ==> !Disturbs(ops[k], job, At(db, ops, k1).jobs[job].address)
    ensures job < |At(db, ops, k2).jobs| && At(db, ops, k2).jobs[job] == At(db, ops, k1).jobs[job]
  {
    if k1 < k2 {
      WaitingUntouched(db, ops, job, k1, k2 - 1);
      StepKeepsWaiting(At(db, ops, k2 - 1), ops[k2 - 1], job);
    }
  }

  // After a job is put back with a next attempt time, and as long as nobody asks for a manual retry
  // of its address, no claim hands it out before that time.
  lemma BackoffRespected(db: Db, ops: seq<Op>, job: JobId, mark: nat, claim: nat)
    requires mark < claim < |ops|
    requires ops[mark].MarkRetryable? && Settles(At(db, ops, mark), ops[mark], job)
    requires forall k :: mark < k < claim ==> !Disturbs(ops[k], job, At(db, ops, mark).jobs[job].address)
    requires ops[claim].Claim? && ops[claim].pick == Some(job)
    requires LegalPick(At(db, ops, claim), ops[claim].skipped, ops[claim].pick)
    ensures At(db, ops, claim).now >= ops[mark].nextAttemptAt
  {
    WaitingUntouched(db, ops, job, mark + 1, claim);
    assert Candidate(At(db, ops, claim), ops[claim].skipped, job);
  }
}
