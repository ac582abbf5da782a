/** The row counts of an import task, and the status a finisher writes. */
module AddressImportCounts {
  import opened Wrappers
  import opened AddressImports
  import opened AddressImportRuns

  predicate Exact(t: Task, c: Tally) {
    t.processedRows == c.succeeded + c.errored + c.skipped && t.successRows == c.succeeded && t.failedRows == c.errored
  }

  // The counts are those of this or an earlier moment.
  predicate Lagging(t: Task, c: Tally) {
    && t.successRows <= c.succeeded && t.failedRows <= c.errored
    && 0 <= t.processedRows - t.successRows - t.failedRows <= c.skipped
  }

  ghost predicate CountShape(db: Db) {
    forall t :: 0 <= t < |db.tasks| ==>
      && db.tasks[t].totalRows == Counts(db.attempts, t).total
      && Lagging(db.tasks[t], Counts(db.attempts, t))
      && (db.tasks[t].status == Cancelled ==> Exact(db.tasks[t], Counts(db.attempts, t)))
  }

  // ---------- Counting lemmas ----------

  lemma {:induction false} NonePendingIsZero(attempts: seq<Attempt>, t: TaskId, n: nat)
    requires n <= |attempts|
    ensures Count(attempts, t, n).pending == 0 <==>
            forall i :: 0 <= i < n && attempts[i].task == t ==> attempts[i].status != Pending
  {
    if n > 0 { NonePendingIsZero(attempts, t, n - 1); }
  }

  lemma {:induction false} CountIsPointwise(a: seq<Attempt>, b: seq<Attempt>, t: TaskId, n: nat)
    requires n <= |a| && n <= |b|
    requires forall i :: 0 <= i < n ==>
               a[i].task == b[i].task && (a[i].status != Pending ==> a[i].status == b[i].status)
    ensures Count(a, t, n).total == Count(b, t, n).total
    ensures Count(a, t, n).succeeded <= Count(b, t, n).succeeded
    ensures Count(a, t, n).errored <= Count(b, t, n).errored
    ensures Count(a, t, n).skipped <= Count(b, t, n).skipped
  {
    if n > 0 { CountIsPointwise(a, b, t, n - 1); }
  }

  lemma {:induction false} OtherTasksDoNotCount(a: seq<Attempt>, t: TaskId, m: nat, n: nat)
    requires m <= n <= |a|
    requires forall i :: m <= i < n ==> a[i].task != t
    ensures Count(a, t, n) == Count(a, t, m)
  {
    if m < n { OtherTasksDoNotCount(a, t, m, n - 1); }
  }

  lemma CountsEvolve(a: Db, b: Db, t: TaskId)
    requires Evolved(a, b) && t < |a.tasks|
    ensures Counts(a.attempts, t).total == Counts(b.attempts, t).total
    ensures Counts(a.attempts, t).succeeded <= Counts(b.attempts, t).succeeded
    ensures Counts(a.attempts, t).errored <= Counts(b.attempts, t).errored
    ensures Counts(a.attempts, t).skipped <= Counts(b.attempts, t).skipped
    ensures NonePending(a.attempts, t) ==> Counts(a.attempts, t) == Counts(b.attempts, t)
  {
    CountIsPointwise(a.attempts, b.attempts, t, |a.attempts|);
    OtherTasksDoNotCount(b.attempts, t, |a.attempts|, |b.attempts|);
    NonePendingIsZero(a.attempts, t, |a.attempts|);
  }

  lemma {:induction false} FreshAttemptsCount(a: seq<Attempt>, t: TaskId, m: nat, n: nat)
    requires m <= n <= |a|
    requires forall i :: m <= i < n ==> a[i].task == t && a[i].status == Pending
    requires Count(a, t, m) == Tally(0, 0, 0, 0, 0)
    ensures Count(a, t, n) == Tally(n - m, n - m, 0, 0, 0)
  {
    if m < n { FreshAttemptsCount(a, t, m, n - 1); }
  }

  // ---------- Counts over runs ----------

  // A step either recounts a task or leaves its counts alone; a cancel recounts.
  lemma StepCounts(db: Db, op: Op, t: TaskId)
    requires ImportShape(db) && t < |db.tasks|
    ensures var x := db.tasks[t]; var y := Apply(db, op).tasks[t];
            && (|| Exact(y, Counts(Apply(db, op).attempts, t))
                || (x.processedRows == y.processedRows && x.successRows == y.successRows
                    && x.failedRows == y.failedRows))
            && (y.status == Cancelled ==> x.status == Cancelled || Exact(y, Counts(Apply(db, op).attempts, t)))
  {
  }

  lemma CreateCounts(db: Db, seeds: seq<Seed>, at: int)
    requires ImportShape(db)
    ensures Counts(ApplyCreate(db, seeds, at).attempts, |db.tasks|) == Tally(|seeds|, |seeds|, 0, 0, 0)
  {
    var after := ApplyCreate(db, seeds, at);
    OtherTasksDoNotCount(after.attempts, |db.tasks|, 0, |db.attempts|);
    FreshAttemptsCount(after.attempts, |db.tasks|, |db.attempts|, |after.attempts|);
  }

  lemma StepKeepsCounts(db: Db, op: Op, t: TaskId)
    requires ImportShape(db) && CountShape(db) && t < |Apply(db, op).tasks|
    ensures var y := Apply(db, op).tasks[t]; var c := Counts(Apply(db, op).attempts, t);
            y.totalRows == c.total && Lagging(y, c) && (y.status == Cancelled ==> Exact(y, c))
  {
    if t < |db.tasks| {
      StepEvolves(db, op);
      CountsEvolve(db, Apply(db, op), t);
      StepCounts(db, op, t);
    } else {
      CreateCounts(db, op.seeds, op.at);
    }
  }

  // At every moment total_rows is the number of attempts, the other counts never run ahead of the
  // attempts, and a cancelled task's counts are exact with every row processed.
  lemma {:induction false} CountsAlways(ops: seq<Op>, k: nat)
    requires k <= |ops|
    ensures CountShape(At(Empty(), ops, k))
    ensures var db := At(Empty(), ops, k);
            forall t :: 0 <= t < |db.tasks| && db.tasks[t].status == Cancelled ==>
                db.tasks[t].processedRows == db.tasks[t].totalRows
  {
    ImportSafety(ops, k);
    if k > 0 {
      CountsAlways(ops, k - 1);
      ImportSafety(ops, k - 1);
      var before := At(Empty(), ops, k - 1);
      var db := At(Empty(), ops, k);
      forall t | 0 <= t < |db.tasks|
        ensures db.tasks[t].totalRows == Counts(db.attempts, t).total && Lagging(db.tasks[t], Counts(db.attempts, t))
        ensures db.tasks[t].status == Cancelled ==> Exact(db.tasks[t], Counts(db.attempts, t))
        ensures db.tasks[t].status == Cancelled ==> Counts(db.attempts, t).pending == 0
      {
        StepKeepsCounts(before, ops[k - 1], t);
        if Done(db.tasks[t]) {
          assert NonePending(db.attempts, t);
          NonePendingIsZero(db.attempts, t, |db.attempts|);
        }
      }
    }
  }

  lemma {:induction false} NoneSkippedIsZero(attempts: seq<Attempt>, t: TaskId, n: nat)
    requires n <= |attempts|
    requires forall i :: 0 <= i < n && attempts[i].task == t ==> attempts[i].status != Skipped
    ensures Count(attempts, t, n).skipped == 0
  {
    if n > 0 { NoneSkippedIsZero(attempts, t, n - 1); }
  }

  // A finished task's counts are exact if and only if it shows every row processed, which a
  // reader of the row can check; and then, unless it was cancelled, success + failed = total.
  lemma FinishedCountsExactly(ops: seq<Op>, k: nat, t: TaskId)
    requires k <= |ops| && t < |At(Empty(), ops, k).tasks| && Done(At(Empty(), ops, k).tasks[t])
    ensures var db := At(Empty(), ops, k); var row := db.tasks[t];
            && (Exact(row, Counts(db.attempts, t)) <==> row.processedRows == row.totalRows)
            && (row.processedRows == row.totalRows && row.status != Cancelled ==>
                  row.successRows + row.failedRows == row.totalRows)
  {
    CountsAlways(ops, k);
    ImportSafety(ops, k);
    var db := At(Empty(), ops, k);
    NonePendingIsZero(db.attempts, t, |db.attempts|);
    if db.tasks[t].status != Cancelled {
      NoneSkippedIsZero(db.attempts, t, |db.attempts|);
    }
  }

  // ---------- The status a finisher writes ----------

  predicate Touches(op: Op, f: FinisherId) {
    (op.BeginFinish? || op.CheckPending? || op.Finish? || op.Abandon?) && op.finisher == f
  }

  lemma StepKeepsFinisher(db: Db, op: Op, f: FinisherId)
    requires f in db.finishers && !Touches(op, f)
    ensures f in Apply(db, op).finishers && Apply(db, op).finishers[f] == db.finishers[f]
  {
    hide Counts, LegalPick, MarkMatches;
  }

  lemma {:induction false} FinisherWaits(db: Db, ops: seq<Op>, f: FinisherId, k1: nat, k2: nat)
    requires k1 <= k2 <= |ops| && f in At(db, ops, k1).finishers
    requires forall k :: k1 <= k < k2 ==> !Touches(ops[k], f)
    ensures f in At(db, ops, k2).finishers && At(db, ops, k2).finishers[f] == At(db, ops, k1).finishers[f]
  {
    hide Apply, Touches;
    if k1 < k2 {
      FinisherWaits(db, ops, f, k1, k2 - 1);
      StepKeepsFinisher(At(db, ops, k2 - 1), ops[k2 - 1], f);
    }
  }

  // No attempt of an import changed between two moments.
  ghost predicate Quiet(a: Db, b: Db, t: TaskId) {
    |a.attempts| <= |b.attempts|
    && forall i :: 0 <= i < |a.attempts| && a.attempts[i].task == t ==> a.attempts[i] == b.attempts[i]
  }

  predicate AllErrored(attempts: seq<Attempt>, t: TaskId) {
    forall i :: 0 <= i < |attempts| && attempts[i].task == t ==> attempts[i].status == Errored
  }

  lemma {:induction false} AllErroredIsCount(attempts: seq<Attempt>, t: TaskId, n: nat)
    requires n <= |attempts|
    ensures (forall i :: 0 <= i < n && attempts[i].task == t ==> attempts[i].status == Errored)
            <==> Count(attempts, t, n).errored == Count(attempts, t, n).total
  {
    if n > 0 { AllErroredIsCount(attempts, t, n - 1); }
  }

  // One finisher's three statements, `begin`, `check` and `finish`, with anything in between.
  ghost predicate FinishesTask(ops: seq<Op>, f: FinisherId, t: TaskId, begin: nat, check: nat, finish: nat) {
    && begin < check < finish < |ops|
    && ops[begin] == BeginFinish(f, t) && f !in At(Empty(), ops, begin).finishers
    && ops[check] == CheckPending(f) && ops[finish].Finish? && ops[finish].finisher == f
    && (forall k :: begin < k < finish && k != check ==> !Touches(ops[k], f))
    && t < |At(Empty(), ops, begin).tasks| && At(Empty(), ops, begin).tasks[t].status == Running
    && NonePending(At(Empty(), ops, check).attempts, t)
    && t < |At(Empty(), ops, finish).tasks| && At(Empty(), ops, finish).tasks[t].status == Running
  }

  lemma QuietCounts(a: Db, b: Db, t: TaskId)
    requires Evolved(a, b) && t < |a.tasks| && NonePending(b.attempts, t)
    ensures Quiet(a, b, t) <==> Counts(a.attempts, t).pending == 0
  {
    NonePendingIsZero(a.attempts, t, |a.attempts|);
  }

  // Seen at the refresh, checked, and after the finish: nothing changed in between exactly when the refreshed
  // row already showed every row processed, and then status and counts are right.
  ghost predicate SoundFinish(seen: Db, checked: Db, after: Db, t: TaskId) {
    && t < |seen.tasks| && t < |after.tasks|
    && (after.tasks[t].status == Completed || after.tasks[t].status == Failed)
    && (Quiet(seen, checked, t) <==> seen.tasks[t].processedRows == seen.tasks[t].totalRows)
    && (Quiet(seen, checked, t) ==>
          && (after.tasks[t].status == Failed <==> AllErrored(after.attempts, t) && after.tasks[t].totalRows > 0)
          && after.tasks[t].successRows + after.tasks[t].failedRows == after.tasks[t].totalRows
          && Exact(after.tasks[t], Counts(after.attempts, t)))
  }

  // What the finisher's own statements amount to.
  ghost predicate WroteVerdict(seen: Db, checked: Db, after: Db, t: TaskId) {
    && t < |seen.tasks| && seen.tasks[t].status == Running && Exact(seen.tasks[t], Counts(seen.attempts, t))
    && NonePending(checked.attempts, t)
    && t < |after.tasks| && after.tasks[t].status == Verdict(seen.tasks[t])
  }

  lemma VerdictIsSound(ops: seq<Op>, t: TaskId, k1: nat, k2: nat, k3: nat)
    requires k1 <= k2 <= k3 <= |ops|
    requires WroteVerdict(At(Empty(), ops, k1), At(Empty(), ops, k2), At(Empty(), ops, k3), t)
    ensures SoundFinish(At(Empty(), ops, k1), At(Empty(), ops, k2), At(Empty(), ops, k3), t)
  {
    var seen := At(Empty(), ops, k1);
    SettledForGood(Empty(), ops, k1, k2);
    CountsAlways(ops, k1);
    ImportSafety(ops, k1);
    QuietExactly(seen, At(Empty(), ops, k2), t);
    if Counts(seen.attempts, t).pending == 0 {
      QuietFinish(ops, t, k1, k3);
    }
  }

  // When the check finds nothing pending: nothing changed since the refresh exactly when the refresh
  // saw every row processed.
  lemma QuietExactly(seen: Db, checked: Db, t: TaskId)
    requires Evolved(seen, checked) && ImportShape(seen) && CountShape(seen)
    requires t < |seen.tasks| && seen.tasks[t].status == Running && Exact(seen.tasks[t], Counts(seen.attempts, t))
    requires NonePending(checked.attempts, t)
    ensures Quiet(seen, checked, t) <==> Counts(seen.attempts, t).pending == 0
    ensures Quiet(seen, checked, t) <==> seen.tasks[t].processedRows == seen.tasks[t].totalRows
  {
    RunningNeverSkipped(seen, t);
    QuietCounts(seen, checked, t);
  }

  // From a moment at which a running task shows exact counts and nothing pending, counts and attempts stay.
  lemma QuietFinish(ops: seq<Op>, t: TaskId, k1: nat, k2: nat)
    requires k1 <= k2 <= |ops| && t < |At(Empty(), ops, k1).tasks|
    requires At(Empty(), ops, k1).tasks[t].status == Running
    requires Counts(At(Empty(), ops, k1).attempts, t).pending == 0
    requires Exact(At(Empty(), ops, k1).tasks[t], Counts(At(Empty(), ops, k1).attempts, t))
    ensures var seen := At(Empty(), ops, k1); var after := At(Empty(), ops, k2);
            && t < |after.tasks| && Exact(after.tasks[t], Counts(after.attempts, t))
            && after.tasks[t].successRows + after.tasks[t].failedRows == after.tasks[t].totalRows
            && (Verdict(seen.tasks[t]) == Failed <==> AllErrored(after.attempts, t) && after.tasks[t].totalRows > 0)
  {
    var seen := At(Empty(), ops, k1);
    var after := At(Empty(), ops, k2);
    NonePendingIsZero(seen.attempts, t, |seen.attempts|);
    SettledForGood(Empty(), ops, k1, k2);
    CountsEvolve(seen, after, t);
    ImportSafety(ops, k1);
    RunningNeverSkipped(seen, t);
    CountsAlways(ops, k2);
    SettledStays(ops, t, k1, k2);
    AllErroredIsCount(after.attempts, t, |after.attempts|);
  }

  // Nothing pending, counts exact.
  ghost predicate Settled(db: Db, t: TaskId) {
    t < |db.tasks| && NonePending(db.attempts, t) && Exact(db.tasks[t], Counts(db.attempts, t))
  }

  lemma StepKeepsSettled(db: Db, op: Op, t: TaskId)
    requires ImportShape(db) && Settled(db, t)
    ensures Settled(Apply(db, op), t)
  {
    StepEvolves(db, op);
    CountsEvolve(db, Apply(db, op), t);
    StepCounts(db, op, t);
    EvolvedKeepsNonePending(db, Apply(db, op), t);
  }

  lemma SettledStep(ops: seq<Op>, t: TaskId, k: nat)
    requires k < |ops| && Settled(At(Empty(), ops, k), t)
    ensures Settled(At(Empty(), ops, k + 1), t)
  {
    ImportSafety(ops, k);
    StepKeepsSettled(At(Empty(), ops, k), ops[k], t);
  }

  lemma {:induction false} SettledStays(ops: seq<Op>, t: TaskId, k1: nat, k2: nat)
    requires k1 <= k2 <= |ops| && Settled(At(Empty(), ops, k1), t)
    ensures Settled(At(Empty(), ops, k2), t)
  {
    if k1 < k2 {
      SettledStays(ops, t, k1, k2 - 1);
      SettledStep(ops, t, k2 - 1);
    }
  }

  lemma RunningNeverSkipped(db: Db, t: TaskId)
    requires ImportShape(db) && t < |db.tasks| && db.tasks[t].status == Running
    ensures Counts(db.attempts, t).skipped == 0
  {
    NoneSkippedIsZero(db.attempts, t, |db.attempts|);
  }

  // What the finisher remembers after its refresh, and what it decides at its check.
  lemma BeginRemembers(db: Db, f: FinisherId, t: TaskId)
    requires f !in db.finishers && t < |db.tasks| && db.tasks[t].status == Running
    ensures var seen := Apply(db, BeginFinish(f, t));
            && t < |seen.tasks| && seen.tasks[t].status == Running && Exact(seen.tasks[t], Counts(seen.attempts, t))
            && f in seen.finishers && seen.finishers[f] == Refreshed(t, seen.tasks[t])
  {
    hide Count;
  }

  lemma CheckDecides(db: Db, f: FinisherId, t: TaskId, snapshot: Task)
    requires f in db.finishers && db.finishers[f] == Refreshed(t, snapshot) && NonePending(db.attempts, t)
    ensures var decided := Apply(db, CheckPending(f));
            f in decided.finishers && decided.finishers[f] == Checked(t, Verdict(snapshot))
  {
  }

  lemma FinishWrites(db: Db, f: FinisherId, t: TaskId, verdict: TaskStatus, finish: Op)
    requires f in db.finishers && db.finishers[f] == Checked(t, verdict)
    requires t < |db.tasks| && db.tasks[t].status == Running && finish.Finish? && finish.finisher == f
    ensures t < |Apply(db, finish).tasks| && Apply(db, finish).tasks[t].status == verdict
  {
  }

  lemma FinishWritesVerdict(ops: seq<Op>, f: FinisherId, t: TaskId, begin: nat, check: nat, finish: nat)
    requires FinishesTask(ops, f, t, begin, check, finish)
    ensures begin < check < finish < |ops|
    ensures WroteVerdict(At(Empty(), ops, begin + 1), At(Empty(), ops, check), At(Empty(), ops, finish + 1), t)
  {
    hide Apply, Exact, NonePending, Verdict, Counts;
    BeginRemembers(At(Empty(), ops, begin), f, t);
    var seen := At(Empty(), ops, begin + 1);
    FinisherWaits(Empty(), ops, f, begin + 1, check);
    CheckDecides(At(Empty(), ops, check), f, t, seen.tasks[t]);
    FinisherWaits(Empty(), ops, f, check + 1, finish);
    FinishWrites(At(Empty(), ops, finish), f, t, Verdict(seen.tasks[t]), ops[finish]);
  }

  // When no attempt of the import changed between the refresh and the pending check, status and counts are right; that
  // nothing changed is to be seen on the refreshed row: it shows every row processed.
  lemma FinishVerdict(ops: seq<Op>, f: FinisherId, t: TaskId, begin: nat, check: nat, finish: nat)
    requires FinishesTask(ops, f, t, begin, check, finish)
    ensures SoundFinish(At(Empty(), ops, begin + 1), At(Empty(), ops, check), At(Empty(), ops, finish + 1), t)
  {
    hide FinishesTask, At, Apply;
    FinishWritesVerdict(ops, f, t, begin, check, finish);
    assert SoundFinish(At(Empty(), ops, begin + 1), At(Empty(), ops, check), At(Empty(), ops, finish + 1), t) by {
      VerdictIsSound(ops, t, begin + 1, check, finish + 1);
    }
  }
}
