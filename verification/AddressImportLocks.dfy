/** Who owns a running import, by the claimers' own clocks. */
module AddressImportLocks {
  import opened Wrappers
  import opened AddressImports
  import opened AddressImportRuns

  // A claim only takes a running task from somebody else when its lock is more than five minutes old.
  lemma TakeoverNeedsStaleLock(db: Db, worker: Worker, at: int, skipped: set<TaskId>, t: TaskId)
    requires LegalPick(db, worker, at, skipped, Some(t))
    requires db.tasks[t].status == Running && db.tasks[t].lockedBy != Some(worker)
    ensures db.tasks[t].lockedAt.Some? && at - db.tasks[t].lockedAt.value > 300
    ensures HoldsLock(Apply(db, Claim(worker, at, skipped, Some(t))), t, worker)
    // and then nothing the worker already owns was left to it
    ensures forall i :: 0 <= i < |db.tasks| && i !in skipped ==> !HoldsLock(db, i, worker)
  {
    forall i | 0 <= i < |db.tasks| && i !in skipped ensures !HoldsLock(db, i, worker) {
      if HoldsLock(db, i, worker) { assert Claimable(db, worker, at, skipped, i); }
    }
  }

  // Locked since `since` or later, or finished.
  predicate HeldSince(db: Db, t: TaskId, worker: Worker, since: int) {
    && t < |db.tasks|
    && (|| Done(db.tasks[t])
        || (HoldsLock(db, t, worker) && db.tasks[t].lockedAt.Some? && db.tasks[t].lockedAt.value >= since))
  }

  // A claim or renewal whose clock respects a lock taken at `since`.
  predicate ClockRespects(op: Op, t: TaskId, worker: Worker, since: int) {
    && (op.Claim? && op.pick == Some(t) ==>
          if op.worker == worker then op.at >= since else op.at <= since + 300)
    && (op.Renew? && op.task == t && op.worker == worker ==> op.at >= since)
  }

  lemma StepKeepsHeld(db: Db, op: Op, t: TaskId, worker: Worker, since: int)
    requires ImportShape(db) && HeldSince(db, t, worker, since) && ClockRespects(op, t, worker, since)
    ensures HeldSince(Apply(db, op), t, worker, since)
  {
    StepEvolves(db, op);
    if op.Finish? && op.finisher in db.finishers { assert FinisherShape(db, db.finishers[op.finisher]); }
  }

  // While claimers' clocks are within five minutes of the lock, nobody takes the import over: it stays
  // its worker's until it is finished or cancelled.
  lemma {:induction false} LockProtects(ops: seq<Op>, t: TaskId, worker: Worker, since: int, k1: nat, k2: nat)
    requires k1 <= k2 <= |ops|
    requires HeldSince(At(Empty(), ops, k1), t, worker, since)
    requires forall k :: k1 <= k < k2 ==> ClockRespects(ops[k], t, worker, since)
    ensures HeldSince(At(Empty(), ops, k2), t, worker, since)
  {
    hide Apply, HeldSince, ImportShape;
    if k1 < k2 {
      LockProtects(ops, t, worker, since, k1, k2 - 1);
      ImportSafety(ops, k2 - 1);
      StepKeepsHeld(At(Empty(), ops, k2 - 1), ops[k2 - 1], t, worker, since);
    }
  }

  predicate LockedByOther(db: Db, t: TaskId, worker: Worker) {
    t < |db.tasks| && db.tasks[t].lockedBy != Some(worker)
  }

  predicate ClaimsTask(op: Op, worker: Worker, t: TaskId) {
    op.Claim? && op.worker == worker && op.pick == Some(t)
  }

  lemma StepKeepsOther(db: Db, op: Op, t: TaskId, worker: Worker)
    requires LockedByOther(db, t, worker) && !ClaimsTask(op, worker, t)
    ensures LockedByOther(Apply(db, op), t, worker)
  {
  }

  lemma {:induction false} OtherStays(db: Db, ops: seq<Op>, t: TaskId, worker: Worker, k1: nat, k2: nat)
    requires k1 <= k2 <= |ops| && LockedByOther(At(db, ops, k1), t, worker)
    requires forall k :: k1 <= k < k2 ==> !ClaimsTask(ops[k], worker, t)
    ensures LockedByOther(At(db, ops, k2), t, worker)
  {
    hide Apply, LockedByOther;
    if k1 < k2 {
      OtherStays(db, ops, t, worker, k1, k2 - 1);
      StepKeepsOther(At(db, ops, k2 - 1), ops[k2 - 1], t, worker);
    }
  }

  // Once a task is not locked by a worker - another one has taken it over, or it is finished - and until that
  // worker claims it again, its renewals and its marks under that lock change nothing.
  lemma LostLockChangesNothing(db: Db, ops: seq<Op>, t: TaskId, worker: Worker, lost: nat, call: nat)
    requires lost <= call < |ops| && LockedByOther(At(db, ops, lost), t, worker)
    requires forall k :: lost <= k < call ==> !ClaimsTask(ops[k], worker, t)
    requires (IsMark(ops[call]) && ops[call].lockTask == Some(t) && ops[call].lockWorker == Some(worker))
             || (ops[call].Renew? && ops[call].task == t && ops[call].worker == worker)
    ensures At(db, ops, call + 1) == At(db, ops, call)
  {
    OtherStays(db, ops, t, worker, lost, call);
    LostLockStep(At(db, ops, call), ops[call], t, worker);
  }

  lemma LostLockStep(db: Db, op: Op, t: TaskId, worker: Worker)
    requires LockedByOther(db, t, worker)
    requires (IsMark(op) && op.lockTask == Some(t) && op.lockWorker == Some(worker))
             || (op.Renew? && op.task == t && op.worker == worker)
    ensures Apply(db, op) == db
  {
  }
}
