/** When the status and the counts a finisher leaves are right: the exact conditions. */
module AddressImportFinish {
  import opened Wrappers
  import opened AddressImports
  import opened AddressImportRuns
  import opened AddressImportCounts

  // Failed exactly when there were attempts and every one of them failed.
  ghost predicate RightStatus(db: Db, t: TaskId) {
    t < |db.tasks| && (db.tasks[t].status == Failed <==> AllErrored(db.attempts, t) && db.tasks[t].totalRows > 0)
  }

  // ---------- Runs and their prefixes ----------

  lemma {:induction false} AtPrefix(db: Db, ops: seq<Op>, more: seq<Op>, k: nat)
    requires k <= |ops|
    ensures At(db, ops + more, k) == At(db, ops, k)
  {
    hide Apply;
    if k > 0 { AtPrefix(db, ops, more, k - 1); }
  }

  lemma {:induction false} AtSuffix(db: Db, ops: seq<Op>, more: seq<Op>, k: nat)
    requires k <= |more|
    ensures At(db, ops + more, |ops| + k) == At(At(db, ops, |ops|), more, k)
  {
    hide Apply;
    if k == 0 {
      AtPrefix(db, ops, more, |ops|);
    } else {
      AtSuffix(db, ops, more, k - 1);
    }
  }

  // ---------- The status ----------

  // With one success seen, or every row processed, the status is right whatever interleaves.
  lemma SeenEnough(ops: seq<Op>, f: FinisherId, t: TaskId, begin: nat, check: nat, finish: nat)
    requires FinishesTask(ops, f, t, begin, check, finish) && t < |At(Empty(), ops, begin + 1).tasks|
    requires var row := At(Empty(), ops, begin + 1).tasks[t]; row.successRows > 0 || row.processedRows == row.totalRows
    ensures RightStatus(At(Empty(), ops, finish + 1), t)
  {
    hide FinishesTask, At, Apply, Counts;
    FinishVerdict(ops, f, t, begin, check, finish);
    FinishWritesVerdict(ops, f, t, begin, check, finish);
    var seen := At(Empty(), ops, begin + 1);
    if seen.tasks[t].successRows > 0 {
      SuccessStays(ops, t, begin + 1, finish + 1);
    }
  }

  lemma SuccessStays(ops: seq<Op>, t: TaskId, k1: nat, k2: nat)
    requires k1 <= k2 <= |ops| && t < |At(Empty(), ops, k1).tasks|
    requires Counts(At(Empty(), ops, k1).attempts, t).succeeded > 0
    ensures !AllErrored(At(Empty(), ops, k2).attempts, t)
  {
    hide At, Count;
    SettledForGood(Empty(), ops, k1, k2);
    CountsEvolve(At(Empty(), ops, k1), At(Empty(), ops, k2), t);
    AllErroredIsCount(At(Empty(), ops, k2).attempts, t, |At(Empty(), ops, k2).attempts|);
  }

  // The lock holder settles every attempt of its import that is pending, all alike.
  function Marks(n: nat, t: TaskId, worker: Worker, succeed: bool): (marks: seq<Op>)
    ensures |marks| == n
  {
    seq(n, i requires 0 <= i < n =>
      if succeed then MarkSuccess(i, 0, Some(t), Some(worker))
      else MarkFailed(i, "create_failed", "", Some(t), Some(worker)))
  }

  ghost predicate SettledUpTo(db: Db, d: Db, t: TaskId, succeed: bool, j: nat) {
    && d.tasks == db.tasks && d.finishers == db.finishers && |d.attempts| == |db.attempts|
    && forall i :: 0 <= i < |db.attempts| ==>
         if i < j && db.attempts[i].task == t && db.attempts[i].status == Pending
         then d.attempts[i].task == t && d.attempts[i].status == (if succeed then Succeeded else Errored)
         else d.attempts[i] == db.attempts[i]
  }

  lemma MarkSettles(db: Db, d: Db, t: TaskId, worker: Worker, succeed: bool, j: nat)
    requires ImportShape(db) && HoldsLock(db, t, worker) && j < |db.attempts|
    requires SettledUpTo(db, d, t, succeed, j)
    ensures SettledUpTo(db, Apply(d, Marks(|db.attempts|, t, worker, succeed)[j]), t, succeed, j + 1)
  {
  }

  lemma {:induction false} MarksSettle(db: Db, t: TaskId, worker: Worker, succeed: bool, j: nat)
    requires ImportShape(db) && HoldsLock(db, t, worker) && j <= |db.attempts|
    ensures SettledUpTo(db, At(db, Marks(|db.attempts|, t, worker, succeed), j), t, succeed, j)
  {
    hide Apply, ImportShape, HoldsLock, Marks;
    if j > 0 {
      MarksSettle(db, t, worker, succeed, j - 1);
      MarkSettles(db, At(db, Marks(|db.attempts|, t, worker, succeed), j - 1), t, worker, succeed, j - 1);
    }
  }

  // The run goes on to the finish of the finisher whose refresh was its last statement.
  ghost predicate GoesOn(ops: seq<Op>, more: seq<Op>, f: FinisherId, t: TaskId, check: nat, finish: nat) {
    |ops| > 0 && FinishesTask(ops + more, f, t, |ops| - 1, check, finish)
  }

  // Every way the run may go on leaves the right status.
  ghost predicate AlwaysRight(ops: seq<Op>, f: FinisherId, t: TaskId) {
    forall more: seq<Op>, check: nat, finish: nat :: GoesOn(ops, more, f, t, check, finish) ==>
      RightStatus(At(Empty(), ops + more, finish + 1), t)
  }

  // A finisher's refresh was the last statement, and returned a running import.
  ghost predicate JustRefreshed(ops: seq<Op>, f: FinisherId, t: TaskId) {
    && |ops| > 0 && ops[|ops| - 1] == BeginFinish(f, t)
    && f !in At(Empty(), ops, |ops| - 1).finishers
    && t < |At(Empty(), ops, |ops| - 1).tasks| && At(Empty(), ops, |ops| - 1).tasks[t].status == Running
  }

  lemma RefreshedRow(ops: seq<Op>, f: FinisherId, t: TaskId)
    requires JustRefreshed(ops, f, t)
    ensures var seen := At(Empty(), ops, |ops|);
            && t < |seen.tasks| && seen.tasks[t].status == Running && Exact(seen.tasks[t], Counts(seen.attempts, t))
            && f in seen.finishers && seen.finishers[f] == Refreshed(t, seen.tasks[t])
            && ImportShape(seen) && CountShape(seen)
  {
    hide Apply, Counts;
    BeginRemembers(At(Empty(), ops, |ops| - 1), f, t);
    ImportSafety(ops, |ops|);
    CountsAlways(ops, |ops|);
  }

  // The continuation that goes wrong: the lock holder settles the pending attempts against the verdict, then check
  // and finish follow.
  ghost function WrongTurn(seen: Db, f: FinisherId, t: TaskId): seq<Op>
    requires t < |seen.tasks| && seen.tasks[t].lockedBy.Some?
  {
    Marks(|seen.attempts|, t, seen.tasks[t].lockedBy.value, seen.tasks[t].failedRows > 0)
    + [CheckPending(f), Finish(f, 0)]
  }

  lemma WrongTurnEnds(seen: Db, f: FinisherId, t: TaskId)
    requires ImportShape(seen) && t < |seen.tasks| && seen.tasks[t].status == Running
    requires f in seen.finishers && seen.finishers[f] == Refreshed(t, seen.tasks[t])
    ensures seen.tasks[t].lockedBy.Some?
    ensures var n := |seen.attempts|; var turn := WrongTurn(seen, f, t);
            && SettledUpTo(seen, At(seen, turn, n), t, seen.tasks[t].failedRows > 0, n)
            && NonePending(At(seen, turn, n).attempts, t)
            && At(seen, turn, n + 1).tasks == seen.tasks
            && At(seen, turn, n + 2).attempts == At(seen, turn, n).attempts
            && t < |At(seen, turn, n + 2).tasks|
            && At(seen, turn, n + 2).tasks[t].status == Verdict(seen.tasks[t])
            && At(seen, turn, n + 2).tasks[t].totalRows == seen.tasks[t].totalRows
  {
    hide Apply, Marks;
    assert TaskShape(seen.tasks[t]);
    var n := |seen.attempts|;
    var worker := seen.tasks[t].lockedBy.value;
    var succeed := seen.tasks[t].failedRows > 0;
    var marks := Marks(n, t, worker, succeed);
    var turn := WrongTurn(seen, f, t);
    MarksSettle(seen, t, worker, succeed, n);
    AtPrefix(seen, marks, [CheckPending(f), Finish(f, 0)], n);
    var settled := At(seen, turn, n);
    assert turn[n] == CheckPending(f) && turn[n + 1] == Finish(f, 0);
    CheckAndFinish(settled, f, t, seen.tasks[t]);
    assert At(seen, turn, n + 1) == Apply(settled, turn[n]);
  }

  lemma CheckAndFinish(db: Db, f: FinisherId, t: TaskId, snapshot: Task)
    requires f in db.finishers && db.finishers[f] == Refreshed(t, snapshot) && NonePending(db.attempts, t)
    requires t < |db.tasks| && db.tasks[t].status == Running
    ensures var checked := Apply(db, CheckPending(f)); var after := Apply(checked, Finish(f, 0));
            && checked.tasks == db.tasks && after.attempts == db.attempts && t < |after.tasks|
            && after.tasks[t].status == Verdict(snapshot) && after.tasks[t].totalRows == db.tasks[t].totalRows
  {
    CheckDecides(db, f, t, snapshot);
  }

  lemma WrongTurnIsWrong(seen: Db, settled: Db, t: TaskId)
    requires ImportShape(seen) && CountShape(seen) && t < |seen.tasks| && seen.tasks[t].status == Running
    requires Exact(seen.tasks[t], Counts(seen.attempts, t))
    requires seen.tasks[t].successRows == 0 && seen.tasks[t].processedRows != seen.tasks[t].totalRows
    requires SettledUpTo(seen, settled, t, seen.tasks[t].failedRows > 0, |seen.attempts|)
    ensures seen.tasks[t].totalRows > 0
    ensures AllErrored(settled.attempts, t) <==> Verdict(seen.tasks[t]) == Completed
  {
    hide Count;
    RunningNeverSkipped(seen, t);
    NonePendingIsZero(seen.attempts, t, |seen.attempts|);
    NoneSucceededIsZero(seen.attempts, t, |seen.attempts|);
    NoneSkippedConversely(seen.attempts, t, |seen.attempts|);
    var i :| 0 <= i < |seen.attempts| && seen.attempts[i].task == t && seen.attempts[i].status == Pending;
    assert settled.attempts[i].task == t && settled.attempts[i].status != Pending;
    if seen.tasks[t].failedRows == 0 {
      NoneErroredIsZero(seen.attempts, t, |seen.attempts|);
      forall k | 0 <= k < |settled.attempts| && settled.attempts[k].task == t
        ensures settled.attempts[k].status == Errored
      {
        assert seen.attempts[k].status == Pending;
      }
    }
  }

  lemma {:induction false} NoneSucceededIsZero(attempts: seq<Attempt>, t: TaskId, n: nat)
    requires n <= |attempts| && Count(attempts, t, n).succeeded == 0
    ensures forall i :: 0 <= i < n && attempts[i].task == t ==> attempts[i].status != Succeeded
  {
    if n > 0 { NoneSucceededIsZero(attempts, t, n - 1); }
  }

  lemma {:induction false} NoneErroredIsZero(attempts: seq<Attempt>, t: TaskId, n: nat)
    requires n <= |attempts| && Count(attempts, t, n).errored == 0
    ensures forall i :: 0 <= i < n && attempts[i].task == t ==> attempts[i].status != Errored
  {
    if n > 0 { NoneErroredIsZero(attempts, t, n - 1); }
  }

  lemma {:induction false} NoneSkippedConversely(attempts: seq<Attempt>, t: TaskId, n: nat)
    requires n <= |attempts| && Count(attempts, t, n).skipped == 0
    ensures forall i :: 0 <= i < n && attempts[i].task == t ==> attempts[i].status != Skipped
  {
    if n > 0 { NoneSkippedConversely(attempts, t, n - 1); }
  }

  lemma GoesWrong(ops: seq<Op>, f: FinisherId, t: TaskId)
    requires JustRefreshed(ops, f, t) && t < |At(Empty(), ops, |ops|).tasks|
    requires var row := At(Empty(), ops, |ops|).tasks[t]; row.successRows == 0 && row.processedRows != row.totalRows
    ensures !AlwaysRight(ops, f, t)
  {
    hide Apply, Counts, Marks, ImportShape, CountShape, AllErrored, SettledUpTo, NonePending;
    RefreshedRow(ops, f, t);
    var seen := At(Empty(), ops, |ops|);
    var n := |seen.attempts|;
    WrongTurnEnds(seen, f, t);
    var turn := WrongTurn(seen, f, t);
    WrongTurnIsWrong(seen, At(seen, turn, n), t);
    AtSuffix(Empty(), ops, turn, n);
    AtSuffix(Empty(), ops, turn, n + 1);
    AtSuffix(Empty(), ops, turn, n + 2);
    WrongTurnFinishes(ops, f, t, turn);
    assert GoesOn(ops, turn, f, t, |ops| + n, |ops| + n + 1);
    assert !RightStatus(At(Empty(), ops + turn, |ops| + n + 2), t);
  }

  lemma WrongTurnFinishes(ops: seq<Op>, f: FinisherId, t: TaskId, turn: seq<Op>)
    requires JustRefreshed(ops, f, t)
    requires var seen := At(Empty(), ops, |ops|);
             && t < |seen.tasks| && seen.tasks[t].lockedBy.Some? && turn == WrongTurn(seen, f, t)
             && NonePending(At(Empty(), ops + turn, |ops| + |seen.attempts|).attempts, t)
             && At(Empty(), ops + turn, |ops| + |seen.attempts| + 1).tasks == seen.tasks
             && seen.tasks[t].status == Running
    ensures var n := |At(Empty(), ops, |ops|).attempts|;
            FinishesTask(ops + turn, f, t, |ops| - 1, |ops| + n, |ops| + n + 1)
  {
    hide Apply, NonePending;
    var seen := At(Empty(), ops, |ops|);
    var n := |seen.attempts|;
    AtPrefix(Empty(), ops, turn, |ops| - 1);
    forall k | |ops| - 1 < k < |ops| + n ensures !Touches((ops + turn)[k], f) {
      assert (ops + turn)[k] == turn[k - |ops|];
    }
    assert (ops + turn)[|ops| + n] == turn[n] && (ops + turn)[|ops| + n + 1] == turn[n + 1];
  }

  // Whatever happens after a finisher's refresh, the status it leaves is right: if and only if the row the refresh
  // returned shows a success or shows every row processed.
  lemma FinishStatusExactly(ops: seq<Op>, f: FinisherId, t: TaskId)
    requires JustRefreshed(ops, f, t)
    ensures t < |At(Empty(), ops, |ops|).tasks|
    ensures var row := At(Empty(), ops, |ops|).tasks[t];
            AlwaysRight(ops, f, t) <==> row.successRows > 0 || row.processedRows == row.totalRows
  {
    hide Apply, FinishesTask, RightStatus;
    RefreshedRow(ops, f, t);
    var row := At(Empty(), ops, |ops|).tasks[t];
    if row.successRows > 0 || row.processedRows == row.totalRows {
      forall more: seq<Op>, check: nat, finish: nat | GoesOn(ops, more, f, t, check, finish)
        ensures finish < |ops + more| && RightStatus(At(Empty(), ops + more, finish + 1), t)
      {
        FinishWritesVerdict(ops + more, f, t, |ops| - 1, check, finish);
        AtPrefix(Empty(), ops, more, |ops|);
        SeenEnough(ops + more, f, t, |ops| - 1, check, finish);
      }
    } else {
      GoesWrong(ops, f, t);
    }
  }

  // ---------- The counts ----------

  predicate Recounts(db: Db, op: Op, t: TaskId) {
    t < |db.tasks| && ((op.Refresh? && op.task == t)
        || (op.BeginFinish? && op.task == t && op.finisher !in db.finishers))
  }

  // The mark takes effect on an attempt of the import.
  predicate SettlesOne(db: Db, op: Op, t: TaskId) {
    && IsMark(op) && MarkMatches(db, op.attempt, op.lockTask, op.lockWorker)
    && db.attempts[op.attempt].task == t && db.attempts[op.attempt].status == Pending
  }

  // Some recount was not followed by a mark that took effect on an attempt of the import.
  ghost predicate RecountedLast(ops: seq<Op>, t: TaskId, begin: nat, finish: nat)
    requires finish <= |ops|
  {
    exists r :: begin <= r < finish && RecountIsLast(ops, t, r, finish)
  }

  ghost predicate RecountIsLast(ops: seq<Op>, t: TaskId, r: nat, finish: nat)
    requires r < finish <= |ops|
  {
    && Recounts(At(Empty(), ops, r), ops[r], t)
    && forall k :: r < k < finish ==> !SettlesOne(At(Empty(), ops, k), ops[k], t)
  }

  lemma RecountIsExact(db: Db, op: Op, t: TaskId)
    requires Recounts(db, op, t)
    ensures t < |Apply(db, op).tasks| && Exact(Apply(db, op).tasks[t], Counts(Apply(db, op).attempts, t))
    ensures Apply(db, op).attempts == db.attempts
  {
    hide Count;
  }

  lemma OthersDoNotRecount(db: Db, op: Op, t: TaskId)
    requires t < |db.tasks| && !Recounts(db, op, t) && Apply(db, op).tasks[t].status != Cancelled
    ensures var x := db.tasks[t]; var y := Apply(db, op).tasks[t];
            x.processedRows == y.processedRows && x.successRows == y.successRows && x.failedRows == y.failedRows
  {
    hide Counts;
  }

  lemma OthersDoNotSettle(db: Db, op: Op, t: TaskId)
    requires ImportShape(db) && t < |db.tasks| && !SettlesOne(db, op, t) && Apply(db, op).tasks[t].status != Cancelled
    requires NonePending(Apply(db, op).attempts, t)
    ensures NonePending(db.attempts, t)
  {
    hide Counts;
    StepEvolves(db, op);
    forall i | 0 <= i < |db.attempts| && db.attempts[i].task == t ensures db.attempts[i].status != Pending {
      assert Apply(db, op).attempts[i].status != Pending;
    }
  }

  lemma {:induction false} NothingPendingSince(ops: seq<Op>, t: TaskId, k1: nat, k2: nat)
    requires k1 <= k2 <= |ops| && t < |At(Empty(), ops, k1).tasks|
    requires t < |At(Empty(), ops, k2).tasks| && At(Empty(), ops, k2).tasks[t].status == Running
    requires NonePending(At(Empty(), ops, k2).attempts, t)
    requires forall k :: k1 <= k < k2 ==> !SettlesOne(At(Empty(), ops, k), ops[k], t)
    ensures NonePending(At(Empty(), ops, k1).attempts, t)
    decreases k2 - k1
  {
    hide Apply, SettlesOne, NonePending;
    if k1 < k2 {
      SettledForGood(Empty(), ops, k1, k1 + 1);
      SettledForGood(Empty(), ops, k1 + 1, k2);
      NothingPendingSince(ops, t, k1 + 1, k2);
      ImportSafety(ops, k1);
      OthersDoNotSettle(At(Empty(), ops, k1), ops[k1], t);
    }
  }

  lemma {:induction false} LastRecount(ops: seq<Op>, t: TaskId, begin: nat, k: nat) returns (r: nat)
    requires begin < k <= |ops| && Recounts(At(Empty(), ops, begin), ops[begin], t)
    ensures begin <= r < k && Recounts(At(Empty(), ops, r), ops[r], t)
    ensures forall j :: r < j < k ==> !Recounts(At(Empty(), ops, j), ops[j], t)
  {
    hide Apply, Recounts;
    if k == begin + 1 {
      r := begin;
    } else if Recounts(At(Empty(), ops, k - 1), ops[k - 1], t) {
      r := k - 1;
    } else {
      r := LastRecount(ops, t, begin, k - 1);
    }
  }

  lemma {:induction false} RowUncounted(ops: seq<Op>, t: TaskId, k1: nat, k2: nat)
    requires k1 <= k2 <= |ops| && t < |At(Empty(), ops, k1).tasks|
    requires t < |At(Empty(), ops, k2).tasks| && At(Empty(), ops, k2).tasks[t].status != Cancelled
    requires forall k :: k1 <= k < k2 ==> !Recounts(At(Empty(), ops, k), ops[k], t)
    ensures var x := At(Empty(), ops, k1).tasks[t]; var y := At(Empty(), ops, k2).tasks[t];
            x.processedRows == y.processedRows && x.successRows == y.successRows && x.failedRows == y.failedRows
    decreases k2 - k1
  {
    hide Apply, Recounts;
    if k1 < k2 {
      SettledForGood(Empty(), ops, k1, k1 + 1);
      SettledForGood(Empty(), ops, k1 + 1, k2);
      RowUncounted(ops, t, k1 + 1, k2);
      OthersDoNotRecount(At(Empty(), ops, k1), ops[k1], t);
    }
  }

  lemma SameCountsNonePending(a: Db, b: Db, t: TaskId)
    requires Evolved(a, b) && t < |a.tasks| && t < |b.tasks| && NonePending(b.attempts, t)
    requires Exact(a.tasks[t], Counts(a.attempts, t)) && Exact(b.tasks[t], Counts(b.attempts, t))
    requires a.tasks[t].processedRows == b.tasks[t].processedRows
    ensures NonePending(a.attempts, t)
  {
    hide Count;
    CountsEvolve(a, b, t);
    NonePendingIsZero(b.attempts, t, |b.attempts|);
    NonePendingIsZero(a.attempts, t, |a.attempts|);
  }

  lemma FinishBounds(ops: seq<Op>, f: FinisherId, t: TaskId, begin: nat, check: nat, finish: nat)
    requires FinishesTask(ops, f, t, begin, check, finish)
    ensures begin < check < finish < |ops|
    ensures Recounts(At(Empty(), ops, begin), ops[begin], t)
    ensures t < |At(Empty(), ops, finish).tasks| && At(Empty(), ops, finish).tasks[t].status == Running
    ensures NonePending(At(Empty(), ops, finish).attempts, t)
    ensures !Recounts(At(Empty(), ops, finish), ops[finish], t)
  {
    hide Apply, NonePending;
    SettledForGood(Empty(), ops, begin, check);
    SettledForGood(Empty(), ops, check, finish);
    EvolvedKeepsNonePending(At(Empty(), ops, check), At(Empty(), ops, finish), t);
  }

  // The counts a finish leaves are exact if and only if, between the finisher's refresh and its final statement,
  // the last recount of the import came after the last mark that settled one of its attempts.
  lemma FinishCountsExactly(ops: seq<Op>, f: FinisherId, t: TaskId, begin: nat, check: nat, finish: nat)
    requires FinishesTask(ops, f, t, begin, check, finish)
    ensures begin < check < finish < |ops| && t < |At(Empty(), ops, finish + 1).tasks|
    ensures var after := At(Empty(), ops, finish + 1);
            Exact(after.tasks[t], Counts(after.attempts, t)) <==> RecountedLast(ops, t, begin, finish)
  {
    hide FinishesTask, At, Apply, Exact, Counts, Recounts, SettlesOne, NonePending;
    FinishBounds(ops, f, t, begin, check, finish);
    SettledForGood(Empty(), ops, finish, finish + 1);
    if RecountedLast(ops, t, begin, finish) {
      var r :| begin <= r < finish && RecountIsLast(ops, t, r, finish);
      RecountedStaysExact(ops, t, r, finish);
    }
    if Exact(At(Empty(), ops, finish + 1).tasks[t], Counts(At(Empty(), ops, finish + 1).attempts, t)) {
      FinishWritesVerdict(ops, f, t, begin, check, finish);
      ExactWasRecounted(ops, t, begin, finish);
    }
  }

  lemma RecountedStaysExact(ops: seq<Op>, t: TaskId, r: nat, finish: nat)
    requires r < finish < |ops| && RecountIsLast(ops, t, r, finish)
    requires t < |At(Empty(), ops, finish).tasks| && At(Empty(), ops, finish).tasks[t].status == Running
    requires NonePending(At(Empty(), ops, finish).attempts, t)
    ensures Settled(At(Empty(), ops, finish + 1), t)
  {
    hide Apply, Recounts, SettlesOne, NonePending, Counts, Exact;
    RecountIsExact(At(Empty(), ops, r), ops[r], t);
    NothingPendingSince(ops, t, r + 1, finish);
    SettledStays(ops, t, r + 1, finish + 1);
  }

  lemma ExactWasRecounted(ops: seq<Op>, t: TaskId, begin: nat, finish: nat)
    requires begin < finish < |ops| && Recounts(At(Empty(), ops, begin), ops[begin], t)
    requires !Recounts(At(Empty(), ops, finish), ops[finish], t)
    requires NonePending(At(Empty(), ops, finish).attempts, t)
    requires t < |At(Empty(), ops, finish).tasks| && t < |At(Empty(), ops, finish + 1).tasks|
    requires At(Empty(), ops, finish + 1).tasks[t].status != Cancelled
    requires var after := At(Empty(), ops, finish + 1); Exact(after.tasks[t], Counts(after.attempts, t))
    ensures RecountedLast(ops, t, begin, finish)
  {
    hide Apply, At, Recounts, NonePending, Counts, Exact;
    var r := LastRecount(ops, t, begin, finish);
    var seen := At(Empty(), ops, r + 1);
    RecountedAt(ops, t, r);
    RowUncounted(ops, t, r + 1, finish + 1);
    SettledForGood(Empty(), ops, r + 1, finish + 1);
    SettledForGood(Empty(), ops, finish, finish + 1);
    EvolvedKeepsNonePending(At(Empty(), ops, finish), At(Empty(), ops, finish + 1), t);
    SameCountsNonePending(seen, At(Empty(), ops, finish + 1), t);
    forall k | r < k < finish ensures !SettlesOne(At(Empty(), ops, k), ops[k], t) {
      SettledForGood(Empty(), ops, r + 1, k);
      EvolvedKeepsNonePending(seen, At(Empty(), ops, k), t);
      NoneToSettle(At(Empty(), ops, k), ops[k], t);
    }
    assert RecountIsLast(ops, t, r, finish);
  }

  lemma RecountedAt(ops: seq<Op>, t: TaskId, r: nat)
    requires r < |ops| && Recounts(At(Empty(), ops, r), ops[r], t)
    ensures var seen := At(Empty(), ops, r + 1); t < |seen.tasks| && Exact(seen.tasks[t], Counts(seen.attempts, t))
  {
    hide Apply, Recounts, Counts, Exact;
    RecountIsExact(At(Empty(), ops, r), ops[r], t);
  }

  lemma NoneToSettle(db: Db, op: Op, t: TaskId)
    requires NonePending(db.attempts, t)
    ensures !SettlesOne(db, op, t)
  {
  }

  // ---------- A run of two workers ----------

  // The second worker takes over the stale lock of the first before that one lists its pending attempts. The first then
  // finds none to work on and goes straight to the finish, and the second settles the last
  // attempt between the first one's refresh and its pending check.
  function StaleVerdictRun(): seq<Op> {
    [Create([Seed(1, 7), Seed(2, 7)], 0), Claim("w1", 0, {}, Some(0)), Renew(0, "w1", 0),
     Claim("w2", 301, {}, Some(0)), Renew(0, "w2", 301),
     Renew(0, "w2", 301), MarkFailed(0, "create_failed", "bad address", Some(0), Some("w2")), Renew(0, "w2", 301),
     Refresh(0), BeginFinish(1, 0), MarkSuccess(1, 42, Some(0), Some("w2")), CheckPending(1), Finish(1, 0)]
  }

  lemma Advance(ops: seq<Op>, k: nat)
    requires k < |ops|
    ensures At(Empty(), ops, k + 1) == Apply(At(Empty(), ops, k), ops[k])
  {
  }

  // One import of two attempts with these statuses, run by this worker.
  ghost predicate TwoRows(db: Db, worker: Worker, lockedAt: int, first: AttemptStatus, second: AttemptStatus) {
    && |db.tasks| == 1 && |db.attempts| == 2 && db.finishers == map[]
    && db.tasks[0].totalRows == 2 && db.tasks[0].status == Running
    && db.tasks[0].lockedBy == Some(worker) && db.tasks[0].lockedAt == Some(lockedAt)
    && db.attempts[0].task == 0 && db.attempts[0].status == first
    && db.attempts[1].task == 0 && db.attempts[1].status == second
  }

  lemma FirstClaim()
    ensures TwoRows(Apply(Apply(Empty(), Create([Seed(1, 7), Seed(2, 7)], 0)), Claim("w1", 0, {}, Some(0))), "w1", 0,
            Pending, Pending)
  {
    var db := Apply(Empty(), Create([Seed(1, 7), Seed(2, 7)], 0));
    assert LegalPick(db, "w1", 0, {}, Some(0));
  }

  lemma TakenOver(db: Db)
    requires TwoRows(db, "w1", 0, Pending, Pending)
    ensures TwoRows(Apply(db, Renew(0, "w1", 0)), "w1", 0, Pending, Pending)
    ensures TwoRows(Apply(db, Claim("w2", 301, {}, Some(0))), "w2", 301, Pending, Pending)
  {
    assert LegalPick(db, "w2", 301, {}, Some(0));
  }

  // Renewed before each attempt.
  lemma Renewed(db: Db, first: AttemptStatus)
    requires TwoRows(db, "w2", 301, first, Pending)
    ensures TwoRows(Apply(db, Renew(0, "w2", 301)), "w2", 301, first, Pending)
  {
  }

  lemma FirstFails(db: Db)
    requires TwoRows(db, "w2", 301, Pending, Pending)
    ensures TwoRows(Apply(db, MarkFailed(0, "create_failed", "bad address", Some(0), Some("w2"))), "w2", 301,
            Errored, Pending)
  {
  }

  lemma CountTwo(a: seq<Attempt>)
    requires |a| == 2 && a[0].task == 0 && a[1].task == 0
    ensures Counts(a, 0) == Add(Add(Tally(0, 0, 0, 0, 0), a[0].status), a[1].status)
  {
    assert Count(a, 0, 1) == Add(Count(a, 0, 0), a[0].status);
  }

  lemma StaleRefresh(db: Db)
    requires TwoRows(db, "w2", 301, Errored, Pending)
    ensures var seen := Apply(db, Refresh(0));
            && TwoRows(seen, "w2", 301, Errored, Pending)
            && seen.tasks[0].processedRows == 1 && seen.tasks[0].successRows == 0 && seen.tasks[0].failedRows == 1
            && Apply(seen, BeginFinish(1, 0)) == seen.(finishers := map[1 := Refreshed(0, seen.tasks[0])])
  {
    CountTwo(db.attempts);
    var seen := Apply(db, Refresh(0));
    assert WithCounts(seen.tasks[0], Counts(seen.attempts, 0)) == seen.tasks[0];
    assert ApplyRefresh(seen, 0).tasks == seen.tasks;
  }

  lemma StaleFinish(seen: Db)
    requires TwoRows(seen, "w2", 301, Errored, Pending)
    requires seen.tasks[0].processedRows == 1 && seen.tasks[0].successRows == 0 && seen.tasks[0].failedRows == 1
    ensures var begun := seen.(finishers := map[1 := Refreshed(0, seen.tasks[0])]);
            var marked := Apply(begun, MarkSuccess(1, 42, Some(0), Some("w2")));
            var after := Apply(Apply(marked, CheckPending(1)), Finish(1, 0));
            && |after.tasks| == 1 && after.tasks[0].status == Failed
            && after.tasks[0].successRows == 0 && after.tasks[0].processedRows == 1 && after.tasks[0].totalRows == 2
            && Counts(after.attempts, 0) == Tally(2, 0, 1, 1, 0)
  {
    var begun := seen.(finishers := map[1 := Refreshed(0, seen.tasks[0])]);
    var marked := Apply(begun, MarkSuccess(1, 42, Some(0), Some("w2")));
    assert marked.attempts[0] == seen.attempts[0] && marked.attempts[1].status == Succeeded
        && marked.attempts[1].task == 0;
    CountTwo(marked.attempts);
    assert Apply(marked, CheckPending(1)).finishers[1] == Checked(0, Failed);
  }

  lemma StartsEmpty(ops: seq<Op>)
    ensures At(Empty(), ops, 0) == Empty()
  {
  }

  lemma SecondTakesOver(ops: seq<Op>)
    requires ops == StaleVerdictRun()
    ensures TwoRows(At(Empty(), ops, 5), "w2", 301, Pending, Pending)
  {
    hide Apply, At, TwoRows;
    assert At(Empty(), ops, 0) == Empty() by { StartsEmpty(ops); }
    Advance(ops, 0);
    Advance(ops, 1);
    FirstClaim();
    Advance(ops, 2);
    TakenOver(At(Empty(), ops, 2));
    Advance(ops, 3);
    TakenOver(At(Empty(), ops, 3));
    Advance(ops, 4);
    Renewed(At(Empty(), ops, 4), Pending);
  }

  lemma SecondWorks(ops: seq<Op>)
    requires ops == StaleVerdictRun() && TwoRows(At(Empty(), ops, 5), "w2", 301, Pending, Pending)
    ensures TwoRows(At(Empty(), ops, 8), "w2", 301, Errored, Pending)
  {
    hide Apply, At, TwoRows;
    Advance(ops, 5);
    Renewed(At(Empty(), ops, 5), Pending);
    Advance(ops, 6);
    FirstFails(At(Empty(), ops, 6));
    Advance(ops, 7);
    Renewed(At(Empty(), ops, 7), Errored);
  }

  // The import ends failed with one row processed, although one of its two attempts succeeded.
  lemma StaleVerdict(ops: seq<Op>)
    requires ops == StaleVerdictRun()
    ensures var db := At(Empty(), ops, |ops|);
            && |db.tasks| == 1 && db.tasks[0].status == Failed
            && db.tasks[0].successRows == 0 && db.tasks[0].processedRows == 1 && db.tasks[0].totalRows == 2
            && Counts(db.attempts, 0) == Tally(2, 0, 1, 1, 0)
  {
    hide Apply, At, TwoRows, Counts;
    SecondTakesOver(ops);
    SecondWorks(ops);
    Advance(ops, 8);
    StaleRefresh(At(Empty(), ops, 8));
    Advance(ops, 9);
    Advance(ops, 10);
    Advance(ops, 11);
    Advance(ops, 12);
    StaleFinish(At(Empty(), ops, 9));
  }
}
