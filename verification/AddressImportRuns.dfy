/** What every interleaving of the import statements keeps. */
module AddressImportRuns {
  import opened AddressImports

  // ---------- Safety ----------

  ghost predicate TaskShape(t: Task) {
    && (t.status == Running <==> t.lockedBy.Some?)
    && (t.status == Running <==> t.lockedAt.Some?)
    && (Done(t) <==> t.completedAt.Some?)
  }

  ghost predicate FinisherShape(db: Db, f: Finisher) {
    && f.task < |db.tasks|
    && (f.Checked? ==> NonePending(db.attempts, f.task) && (f.verdict == Completed || f.verdict == Failed))
  }

  ghost predicate ImportShape(db: Db) {
    && (forall i :: 0 <= i < |db.attempts| ==> db.attempts[i].task < |db.tasks|)
    && (forall t :: 0 <= t < |db.tasks| ==> TaskShape(db.tasks[t]))
    && (forall t :: 0 <= t < |db.tasks| && Done(db.tasks[t]) ==> NonePending(db.attempts, t))
    && (forall i :: 0 <= i < |db.attempts| && db.attempts[i].status == Skipped ==>
          db.tasks[db.attempts[i].task].status == Cancelled)
    && (forall f :: f in db.finishers ==> FinisherShape(db, db.finishers[f]))
  }

  // What any later state may have made of tasks and attempts: settled attempts and finished tasks
  // keep what they are, and attempts never return to pending.
  ghost predicate Evolved(a: Db, b: Db) {
    && |a.tasks| <= |b.tasks| && |a.attempts| <= |b.attempts|
    && (forall t :: 0 <= t < |a.tasks| ==>
          && a.tasks[t].totalRows == b.tasks[t].totalRows && a.tasks[t].createdAt == b.tasks[t].createdAt
          && (Done(a.tasks[t]) ==> b.tasks[t].status == a.tasks[t].status))
    && (forall i :: 0 <= i < |a.attempts| ==>
          && a.attempts[i].task == b.attempts[i].task
          && a.attempts[i].rowNumber == b.attempts[i].rowNumber && a.attempts[i].chain == b.attempts[i].chain
          && (a.attempts[i].status != Pending ==> a.attempts[i] == b.attempts[i]))
    && (forall i :: |a.attempts| <= i < |b.attempts| ==> b.attempts[i].task >= |a.tasks|)
  }

  lemma StepEvolves(db: Db, op: Op)
    ensures Evolved(db, Apply(db, op))
  {
    hide Counts, ClaimLe;
  }

  lemma EvolvedKeepsNonePending(a: Db, b: Db, t: TaskId)
    requires Evolved(a, b) && t < |a.tasks| && NonePending(a.attempts, t)
    ensures NonePending(b.attempts, t)
  {
  }

  lemma StepKeepsTasks(db: Db, op: Op)
    requires ImportShape(db)
    ensures forall t :: 0 <= t < |Apply(db, op).tasks| ==> TaskShape(Apply(db, op).tasks[t])
    ensures forall t :: 0 <= t < |Apply(db, op).tasks| && Done(Apply(db, op).tasks[t])
                        && (t < |db.tasks| ==> !Done(db.tasks[t])) ==>
              NonePending(Apply(db, op).attempts, t)
  {
    hide Counts, ClaimLe;
  }

  lemma StepKeepsAttempts(db: Db, op: Op)
    requires ImportShape(db)
    ensures forall i :: 0 <= i < |Apply(db, op).attempts| ==>
              && Apply(db, op).attempts[i].task < |Apply(db, op).tasks|
              && (Apply(db, op).attempts[i].status == Skipped ==>
                    Apply(db, op).tasks[Apply(db, op).attempts[i].task].status == Cancelled)
  {
    hide Counts, ClaimLe;
  }

  lemma StepKeepsFinishers(db: Db, op: Op)
    requires ImportShape(db)
    ensures forall f :: f in Apply(db, op).finishers ==> FinisherShape(Apply(db, op), Apply(db, op).finishers[f])
  {
    var after := Apply(db, op);
    StepEvolves(db, op);
    forall f | f in after.finishers ensures FinisherShape(after, after.finishers[f]) {
      if f in db.finishers && after.finishers[f] == db.finishers[f] {
        assert FinisherShape(db, db.finishers[f]);
        if db.finishers[f].Checked? { EvolvedKeepsNonePending(db, after, db.finishers[f].task); }
      }
    }
  }

  lemma StepKeepsShape(db: Db, op: Op)
    requires ImportShape(db)
    ensures ImportShape(Apply(db, op))
  {
    StepEvolves(db, op);
    StepKeepsTasks(db, op);
    StepKeepsAttempts(db, op);
    StepKeepsFinishers(db, op);
    var after := Apply(db, op);
    forall t | 0 <= t < |after.tasks| && Done(after.tasks[t]) ensures NonePending(after.attempts, t) {
      if t < |db.tasks| && Done(db.tasks[t]) { EvolvedKeepsNonePending(db, after, t); }
    }
  }

  // Under every interleaving: a lock is held exactly while it runs, and a completed, failed or
  // cancelled task has no pending attempt, although checking and finishing are separate statements.
  lemma {:induction false} ImportSafety(ops: seq<Op>, k: nat)
    requires k <= |ops|
    ensures ImportShape(At(Empty(), ops, k))
  {
    if k > 0 {
      ImportSafety(ops, k - 1);
      StepKeepsShape(At(Empty(), ops, k - 1), ops[k - 1]);
    }
  }

  lemma EvolvedTransitive(a: Db, b: Db, c: Db)
    requires Evolved(a, b) && Evolved(b, c)
    ensures Evolved(a, c)
  {
  }

  // An attempt leaves pending at most once and then never changes; finished tasks are never reopened.
  lemma {:induction false} SettledForGood(db: Db, ops: seq<Op>, k1: nat, k2: nat)
    requires k1 <= k2 <= |ops|
    ensures Evolved(At(db, ops, k1), At(db, ops, k2))
  {
    if k1 < k2 {
      SettledForGood(db, ops, k1, k2 - 1);
      StepEvolves(At(db, ops, k2 - 1), ops[k2 - 1]);
      EvolvedTransitive(At(db, ops, k1), At(db, ops, k2 - 1), At(db, ops, k2));
    }
  }
}
