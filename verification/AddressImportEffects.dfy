/** What the import statements do, in the columns of the tables. */
module AddressImportEffects {
  import opened Wrappers
  import opened AddressImports
  import opened AddressImportRuns
  import P = ImportPlan

  // ---------- Creating ----------

  // A waiting import of so many attempts with nothing counted.
  ghost predicate FreshTask(t: Task, rows: nat, at: int) {
    && t.status == Waiting && t.totalRows == rows && t.createdAt == at
    && t.processedRows == 0 && t.successRows == 0 && t.failedRows == 0
    && t.lockedAt.None? && t.lockedBy.None? && t.startedAt.None? && t.completedAt.None?
  }

  // A pending attempt of its own row and chain, without a result.
  ghost predicate FreshAttempt(a: Attempt, task: TaskId, seed: Seed) {
    && a.task == task && a.rowNumber == seed.rowNumber && a.chain == seed.chain && a.status == Pending
    && a.watchedAddress.None? && a.errorCode.None? && a.errorMessage.None?
  }

  // A new import is appended with one attempt for every seed, in their order; what was there stays.
  ghost predicate Created(db: Db, after: Db, seeds: seq<Seed>, at: int) {
    && |after.tasks| == |db.tasks| + 1 && after.tasks[..|db.tasks|] == db.tasks
    && FreshTask(after.tasks[|db.tasks|], |seeds|, at)
    && |after.attempts| == |db.attempts| + |seeds| && after.attempts[..|db.attempts|] == db.attempts
    && forall i :: 0 <= i < |seeds| ==> FreshAttempt(after.attempts[|db.attempts| + i], |db.tasks|, seeds[i])
  }

  lemma CreateEffect(db: Db, seeds: seq<Seed>, at: int)
    ensures Created(db, Apply(db, Create(seeds, at)), seeds, at)
            && Apply(db, Create(seeds, at)).finishers == db.finishers
  {
  }

  // The attempts of a plan as they are inserted.
  function Seeds(attempts: seq<P.AttemptSeed>): (seeds: seq<Seed>)
    ensures |seeds| == |attempts|
    ensures forall i :: 0 <= i < |seeds| ==> seeds[i] == Seed(attempts[i].rowNumber, attempts[i].chain)
  {
    seq(|attempts|, i requires 0 <= i < |attempts| => Seed(attempts[i].rowNumber, attempts[i].chain))
  }

  // The attempt is for this row and chain of the import.
  predicate IsFor(a: Attempt, task: TaskId, rowNumber: int, chain: nat) {
    a.task == task && a.rowNumber == rowNumber && a.chain == chain
  }

  // An accepted request that is planned and created leaves exactly one attempt for every row and configuration,
  // and that one is pending.
  lemma CreatedAsPlanned(db: Db, request: P.Request, attempts: seq<P.AttemptSeed>, at: int, i: nat, j: nat)
    returns (k: AttemptId)
    requires ImportShape(db) && P.Accepted(request)
    requires P.RowMajor(attempts, request.rows, P.EffectiveConfigs(request.defaults))
    requires i < |request.rows| && j < |P.EffectiveConfigs(request.defaults)|
    ensures var after := Apply(db, Create(Seeds(attempts), at)); var task := |db.tasks|;
            var row := request.rows[i].rowNumber; var chain := P.EffectiveConfigs(request.defaults)[j].chain;
            && k < |after.attempts| && IsFor(after.attempts[k], task, row, chain) && after.attempts[k].status == Pending
            && forall l :: 0 <= l < |after.attempts| && IsFor(after.attempts[l], task, row, chain) ==> l == k
  {
    hide Apply, P.EffectiveConfigs, P.Accepted, P.RowMajor, P.SeedFor;
    var configs := P.EffectiveConfigs(request.defaults);
    var seeds := Seeds(attempts);
    var after := Apply(db, Create(seeds, at));
    CreateEffect(db, seeds, at);
    P.PlanPairs(attempts, request.rows, configs, i, j);
    var n := |db.attempts|;
    var own := i * |configs| + j;
    k := n + own;
    assert FreshAttempt(after.attempts[n + own], |db.tasks|, seeds[own]);
    assert forall l :: 0 <= l < n ==> after.attempts[l] == after.attempts[..n][l] == db.attempts[l];
    forall l | 0 <= l < |after.attempts|
               && IsFor(after.attempts[l], |db.tasks|, request.rows[i].rowNumber, configs[j].chain)
      ensures l == k
    {
      if l >= n {
        assert FreshAttempt(after.attempts[n + (l - n)], |db.tasks|, seeds[l - n]);
        if l - n < own { P.PlanKeysDistinct(request, attempts, l - n, own); }
        if own < l - n { P.PlanKeysDistinct(request, attempts, own, l - n); }
      }
    }
  }

  // ---------- Claiming ----------

  predicate Own(t: Task, worker: Worker) { t.status == Running && t.lockedBy == Some(worker) }

  // Locked more than five minutes before.
  predicate Abandoned(t: Task, at: int) { t.status == Running && t.lockedAt.Some? && at - t.lockedAt.value > 300 }

  predicate MayBeTaken(t: Task, worker: Worker, at: int) { t.status == Waiting || Own(t, worker) || Abandoned(t, at) }

  // The worker's own imports go first, then abandoned ones, then waiting ones; then the older.
  predicate GoesBefore(a: Task, b: Task, worker: Worker, at: int) {
    if Own(a, worker) != Own(b, worker) then Own(a, worker)
    else if !Own(a, worker) && Abandoned(a, at) != Abandoned(b, at) then Abandoned(a, at)
    else a.createdAt <= b.createdAt
  }

  // A claim takes an import that may be taken and that no other such one it does not skip must precede, and takes
  // nothing only when there is none.
  lemma ClaimPicksExactly(db: Db, worker: Worker, at: int, skipped: set<TaskId>, pick: Option<TaskId>)
    requires LegalPick(db, worker, at, skipped, pick)
    ensures pick.Some? ==>
              pick.value < |db.tasks| && pick.value !in skipped && MayBeTaken(db.tasks[pick.value], worker, at)
    ensures forall i :: 0 <= i < |db.tasks| && i !in skipped && MayBeTaken(db.tasks[i], worker, at) ==>
              pick.Some? && GoesBefore(db.tasks[pick.value], db.tasks[i], worker, at)
  {
    forall i | 0 <= i < |db.tasks| && i !in skipped && MayBeTaken(db.tasks[i], worker, at)
      ensures pick.Some? && GoesBefore(db.tasks[pick.value], db.tasks[i], worker, at)
    {
      assert Claimable(db, worker, at, skipped, i);
    }
  }

  ghost predicate OnlyTask(db: Db, after: Db, t: TaskId) {
    && after.attempts == db.attempts && after.finishers == db.finishers && |after.tasks| == |db.tasks|
    && forall k :: 0 <= k < |db.tasks| && k != t ==> after.tasks[k] == db.tasks[k]
  }

  // The import taken runs under the worker's lock from now on, started when it was first taken; its counts stay.
  lemma ClaimEffect(db: Db, worker: Worker, at: int, skipped: set<TaskId>, t: TaskId)
    requires LegalPick(db, worker, at, skipped, Some(t))
    ensures var after := Apply(db, Claim(worker, at, skipped, Some(t)));
            && OnlyTask(db, after, t)
            && (var a := db.tasks[t]; var b := after.tasks[t];
                && b.status == Running && b.lockedAt == Some(at) && b.lockedBy == Some(worker)
                && b.startedAt == (if a.startedAt.Some? then a.startedAt else Some(at))
                && b == a.(status := Running, lockedAt := Some(at), lockedBy := Some(worker), startedAt := b.startedAt))
  {
  }

  lemma RenewEffect(db: Db, task: TaskId, worker: Worker, at: int)
    ensures var after := Apply(db, Renew(task, worker, at));
            if task < |db.tasks| && Own(db.tasks[task], worker) then
              OnlyTask(db, after, task) && after.tasks[task] == db.tasks[task].(lockedAt := Some(at))
            else after == db
  {
  }

  // ---------- Marking ----------

  // The lock a mark names is the running import's, or it names none at all.
  predicate LockFits(db: Db, a: Attempt, lockTask: Option<TaskId>, lockWorker: Option<Worker>)
    requires a.task < |db.tasks|
  {
    || (lockTask == None && lockWorker == None)
    || (lockTask == Some(a.task) && lockWorker.Some? && Own(db.tasks[a.task], lockWorker.value))
  }

  ghost predicate OnlyAttempt(db: Db, after: Db, i: AttemptId) {
    && after.tasks == db.tasks && after.finishers == db.finishers && |after.attempts| == |db.attempts|
    && forall k :: 0 <= k < |db.attempts| && k != i ==> after.attempts[k] == db.attempts[k]
  }

  // On an import that is not cancelled a mark settles a pending attempt under a fitting lock, with its own result, and
  // otherwise does nothing; on a cancelled import it matches exactly pending and skipped attempts and changes nothing.
  lemma MarkEffect(db: Db, op: Op)
    requires IsMark(op) && op.attempt < |db.attempts| && db.attempts[op.attempt].task < |db.tasks|
    ensures var a := db.attempts[op.attempt]; var after := Apply(db, op);
            var matched := MarkMatches(db, op.attempt, op.lockTask, op.lockWorker);
            if db.tasks[a.task].status == Cancelled then
              after == db && (matched <==> a.status == Pending || a.status == Skipped)
            else
              && (matched <==> a.status == Pending && LockFits(db, a, op.lockTask, op.lockWorker))
              && (!matched ==> after == db)
              && (matched ==> OnlyAttempt(db, after, op.attempt) && SettledBy(a, after.attempts[op.attempt], op))
  {
  }

  ghost predicate SettledBy(a: Attempt, b: Attempt, op: Op)
    requires IsMark(op)
  {
    && b.task == a.task && b.rowNumber == a.rowNumber && b.chain == a.chain
    && (op.MarkSuccess? ==> b.status == Succeeded && b.watchedAddress == Some(op.address)
                            && b.errorCode.None? && b.errorMessage.None?)
    && (op.MarkFailed? ==> b.status == Errored && b.watchedAddress == a.watchedAddress
                           && b.errorCode == Some(op.code) && b.errorMessage == Some(op.message))
  }

  // ---------- Counting, cancelling and finishing ----------

  lemma RefreshEffect(db: Db, task: TaskId)
    requires task < |db.tasks|
    ensures var after := Apply(db, Refresh(task)); var c := Counts(db.attempts, task);
            && OnlyTask(db, after, task)
            && after.tasks[task] == db.tasks[task].(processedRows := c.total - c.pending, successRows := c.succeeded,
                                                   failedRows := c.errored)
  {
  }

  // What a cancel does to an attempt: a pending one of the import is skipped with the reason, all others stay.
  ghost predicate SkippedBy(a: Attempt, b: Attempt, task: TaskId) {
    if a.task == task && a.status == Pending then
      && b.status == Skipped && b.errorCode == Some("cancelled") && b.errorMessage == Some("import task cancelled")
      && b == a.(status := b.status, errorCode := b.errorCode, errorMessage := b.errorMessage)
    else b == a
  }

  lemma CancelEffect(db: Db, task: TaskId, at: int)
    requires task < |db.tasks| && (db.tasks[task].status == Waiting || db.tasks[task].status == Running)
    ensures var after := Apply(db, Cancel(task, at));
            && |after.tasks| == |db.tasks| && |after.attempts| == |db.attempts|
            && (forall k :: 0 <= k < |db.tasks| && k != task ==> after.tasks[k] == db.tasks[k])
            && (forall i :: 0 <= i < |db.attempts| ==> SkippedBy(db.attempts[i], after.attempts[i], task))
            && (var a := db.tasks[task]; var b := after.tasks[task];
                && b.status == Cancelled && b.lockedAt.None? && b.lockedBy.None?
                && b.completedAt == (if a.completedAt.Some? then a.completedAt else Some(at))
                && b.totalRows == a.totalRows && b.createdAt == a.createdAt && b.startedAt == a.startedAt)
  {
    hide Counts;
  }

  lemma CancelRefused(db: Db, task: TaskId, at: int)
    requires task >= |db.tasks| || !(db.tasks[task].status == Waiting || db.tasks[task].status == Running)
    ensures Apply(db, Cancel(task, at)) == db
  {
  }

  // A finisher that found nothing pending finishes a running import with its verdict, releasing the lock, and
  // leaves any other import as it is.
  lemma FinishEffect(db: Db, f: FinisherId, at: int)
    requires f in db.finishers && db.finishers[f].Checked? && db.finishers[f].task < |db.tasks|
    ensures var after := Apply(db, Finish(f, at)); var t := db.finishers[f].task;
            && f !in after.finishers && OnlyTask(db, after.(finishers := db.finishers), t)
            && (if db.tasks[t].status == Running then
                  after.tasks[t] == db.tasks[t].(status := db.finishers[f].verdict, completedAt := Some(at),
                                                 lockedAt := None, lockedBy := None)
                else after.tasks[t] == db.tasks[t])
  {
  }
}
