/** The import tables as an object whose statements update rows in place. */
module AddressImportStore {
  import opened Wrappers
  import opened AddressImports
  import opened AddressImportRuns
  import opened AddressImportCounts

  class Store {
    var tasks: seq<Task>
    var attempts: seq<Attempt>

    ghost function Contents(): Db reads this { Db(tasks, attempts, map[]) }

    constructor ()
      ensures Contents() == Empty()
    {
      tasks, attempts := [], [];
    }

    // Task and attempts are inserted in one transaction.
    method CreateImport(seeds: seq<Seed>, at: int) returns (task: TaskId)
      modifies this
      ensures Contents() == Apply(old(Contents()), Create(seeds, at))
      ensures task == |old(tasks)| < |tasks| && tasks[task].totalRows == |seeds|
      // the old attempts, then a pending one for every seed's row and chain
      ensures |attempts| == |old(attempts)| + |seeds| && attempts[..|old(attempts)|] == old(attempts)
      ensures forall i :: 0 <= i < |seeds| ==>
                && attempts[|old(attempts)| + i].task == task && attempts[|old(attempts)| + i].status == Pending
                && attempts[|old(attempts)| + i].rowNumber == seeds[i].rowNumber
                && attempts[|old(attempts)| + i].chain == seeds[i].chain
                && attempts[|old(attempts)| + i].watchedAddress.None? && attempts[|old(attempts)| + i].errorCode.None?
    {
      task := |tasks|;
      tasks := tasks + [Task(Waiting, |seeds|, 0, 0, 0, None, None, None, None, at)];
      attempts := attempts + NewAttempts(task, seeds);
    }

    // ORDER BY (mine, stale, waiting), created_at LIMIT 1 FOR UPDATE SKIP LOCKED, then lock the row.
    method ClaimNext(worker: Worker, at: int, skipped: set<TaskId>) returns (claimed: Option<TaskId>)
      modifies this`tasks
      ensures LegalPick(old(Contents()), worker, at, skipped, claimed)
      ensures Contents() == Apply(old(Contents()), Claim(worker, at, skipped, claimed))
      ensures claimed.Some? ==> HoldsLock(Contents(), claimed.value, worker)
    {
      var db := Db(tasks, attempts, map[]);
      claimed := None;
      for i := 0 to |tasks|
        invariant tasks == db.tasks && db == old(Contents())
        invariant claimed.Some? ==> claimed.value < i && Claimable(db, worker, at, skipped, claimed.value)
        invariant claimed.Some? ==> forall j :: 0 <= j < i && Claimable(db, worker, at, skipped, j)
                                                ==> ClaimLe(db, worker, at, claimed.value, j)
        invariant claimed.None? ==> forall j :: 0 <= j < i ==> !Claimable(db, worker, at, skipped, j)
      {
        if Claimable(db, worker, at, skipped, i) && (claimed.None? || !ClaimLe(db, worker, at, claimed.value, i)) {
          claimed := Some(i);
        }
      }
      if claimed.Some? {
        tasks := tasks[claimed.value := LockedTask(tasks[claimed.value], worker, at)];
      }
    }

    method RenewLock(task: TaskId, worker: Worker, at: int) returns (renewed: bool)
      modifies this`tasks
      ensures Contents() == Apply(old(Contents()), Renew(task, worker, at))
      ensures renewed == HoldsLock(old(Contents()), task, worker)
      ensures renewed ==> HoldsLock(Contents(), task, worker) && tasks[task].lockedAt == Some(at)
    {
      renewed := task < |tasks| && tasks[task].lockedBy == Some(worker) && tasks[task].status == Running;
      if renewed {
        tasks := tasks[task := tasks[task].(lockedAt := Some(at))];
      }
    }

    // A mark settles a pending attempt for the lock holder (or for a caller that names no lock). On a
    // cancelled task it matches, reports success and changes nothing.
    method MarkSuccess(attempt: AttemptId, address: nat, lockTask: Option<TaskId>, lockWorker: Option<Worker>)
      returns (matched: bool)
      modifies this`attempts
      ensures Contents() == Apply(old(Contents()), AddressImports.MarkSuccess(attempt, address, lockTask, lockWorker))
      ensures matched == MarkMatches(old(Contents()), attempt, lockTask, lockWorker)
      ensures matched ==> (attempts == old(attempts) <==> tasks[old(attempts)[attempt].task].status == Cancelled)
      ensures attempts != old(attempts) ==>
                old(attempts)[attempt].status == Pending && attempts[attempt].status == Succeeded
                                            && attempts[attempt].watchedAddress == Some(address)
    {
      var db := Db(tasks, attempts, map[]);
      matched := MarkMatches(db, attempt, lockTask, lockWorker);
      if matched && tasks[attempts[attempt].task].status != Cancelled {
        attempts := attempts[attempt := attempts[attempt].(status := Succeeded, watchedAddress := Some(address),
                                                           errorCode := None, errorMessage := None)];
      }
    }

    method MarkFailed(attempt: AttemptId, code: string, message: string, lockTask: Option<TaskId>,
        lockWorker: Option<Worker>)
      returns (matched: bool)
      modifies this`attempts
      ensures Contents()
              == Apply(old(Contents()), AddressImports.MarkFailed(attempt, code, message, lockTask, lockWorker))
      ensures matched == MarkMatches(old(Contents()), attempt, lockTask, lockWorker)
      ensures matched ==> (attempts == old(attempts) <==> tasks[old(attempts)[attempt].task].status == Cancelled)
      ensures attempts != old(attempts) ==>
                old(attempts)[attempt].status == Pending && attempts[attempt].status == Errored
    {
      var db := Db(tasks, attempts, map[]);
      matched := MarkMatches(db, attempt, lockTask, lockWorker);
      if matched && tasks[attempts[attempt].task].status != Cancelled {
        attempts := attempts[attempt := attempts[attempt].(status := Errored, errorCode := Some(code),
            errorMessage := Some(message))];
      }
    }

    method RefreshCounts(task: TaskId) returns (row: Option<Task>)
      modifies this`tasks
      ensures Contents() == Apply(old(Contents()), Refresh(task))
      ensures row.Some? <==> task < |old(tasks)|
      ensures row.Some? ==> task < |tasks| && row.value == tasks[task] && Exact(row.value, Counts(attempts, task))
    {
      if task >= |tasks| {
        return None;
      }
      row := Some(WithCounts(tasks[task], Counts(attempts, task)));
      tasks := tasks[task := row.value];
    }

    // Both statements of the transaction, or neither.
    method CancelImport(task: TaskId, at: int) returns (row: Option<Task>)
      modifies this
      ensures Contents() == Apply(old(Contents()), Cancel(task, at))
      ensures row.Some? <==> task < |old(tasks)| && !Done(old(tasks)[task])
      ensures row.None? ==> Contents() == old(Contents())
      ensures row.Some? ==> task < |tasks| && row.value == tasks[task] && row.value.status == Cancelled
                            && NonePending(attempts, task) && Exact(row.value, Counts(attempts, task))
    {
      var active := task < |tasks| && !Done(tasks[task]);
      if active {
        attempts := SkippedAttempts(attempts, task);
        var t := WithCounts(tasks[task], Counts(attempts, task));
        row := Some(t.(status := Cancelled, completedAt := Some(t.completedAt.GetOr(at)), lockedAt := None,
            lockedBy := None));
        tasks := tasks[task := row.value];
      } else {
        row := None;
      }
    }

    // The three statements of the finisher in a row, as they behave when nothing comes between them.
    method CompleteIfFinished(task: TaskId, at: int) returns (row: Option<Task>)
      modifies this
      ensures Contents() == Apply(Apply(Apply(old(Contents()), BeginFinish(0, task)), CheckPending(0)), Finish(0, at))
      ensures row.Some? ==> task < |tasks| && row.value == tasks[task]
    {
      row := RefreshCounts(task);
      if row.None? || row.value.status != Running || !NonePending(attempts, task) {
        return;
      }
      row := Some(row.value.(status := Verdict(row.value), completedAt := Some(at), lockedAt := None,
          lockedBy := None));
      tasks := tasks[task := row.value];
    }
  }

  // Nothing comes between the statements: the import is finished exactly when nothing is pending, and then status
  // and counts are right.
  lemma UninterruptedFinish(ops: seq<Op>, k: nat, f: FinisherId, t: TaskId, at: int)
    requires k + 3 <= |ops| && ops[k] == BeginFinish(f, t) && ops[k + 1] == CheckPending(f)
             && ops[k + 2] == Finish(f, at)
    requires f !in At(Empty(), ops, k).finishers
    requires t < |At(Empty(), ops, k).tasks| && At(Empty(), ops, k).tasks[t].status == Running
    ensures var before := At(Empty(), ops, k); var after := At(Empty(), ops, k + 3);
            && t < |after.tasks|
            && (Done(after.tasks[t]) <==> NonePending(before.attempts, t))
            && (Done(after.tasks[t]) ==>
                  && (after.tasks[t].status == Failed <==>
                      AllErrored(after.attempts, t) && after.tasks[t].totalRows > 0)
                  && after.tasks[t].successRows + after.tasks[t].failedRows == after.tasks[t].totalRows)
  {
    var before := At(Empty(), ops, k);
    ThreeSteps(before, ops[k], ops[k + 1], ops[k + 2], f, t, at);
    StepsCompose(ops, k);
    if NonePending(before.attempts, t) {
      FinishVerdict(ops, f, t, k, k + 1, k + 2);
    }
  }

  lemma StepsCompose(ops: seq<Op>, k: nat)
    requires k + 3 <= |ops|
    ensures At(Empty(), ops, k + 1) == Apply(At(Empty(), ops, k), ops[k])
    ensures At(Empty(), ops, k + 2) == Apply(Apply(At(Empty(), ops, k), ops[k]), ops[k + 1])
    ensures At(Empty(), ops, k + 3) == Apply(Apply(Apply(At(Empty(), ops, k), ops[k]), ops[k + 1]), ops[k + 2])
  {
    hide Apply;
  }

  lemma ThreeSteps(db: Db, begin: Op, check: Op, finish: Op, f: FinisherId, t: TaskId, at: int)
    requires begin == BeginFinish(f, t) && check == CheckPending(f) && finish == Finish(f, at)
    requires f !in db.finishers && t < |db.tasks| && db.tasks[t].status == Running
    ensures var seen := Apply(db, begin); var checked := Apply(seen, check); var after := Apply(checked, finish);
            && seen.attempts == db.attempts && checked.attempts == db.attempts && after.attempts == db.attempts
            && t < |seen.tasks| && t < |checked.tasks| && t < |after.tasks|
            && checked.tasks[t].status == Running
            && (Done(after.tasks[t]) <==> NonePending(db.attempts, t))
  {
  }
}
