/** The attempt budget: how often jobs can be handed out, manual retries included. */
module ScanBudget {
  import opened Wrappers
  import opened ScanJobs
  import opened ScanJobRuns
  import opened ScanWorkers

  predicate RowInBudget(j: Job) {
    && (Waiting(j) ==> j.attemptCount < j.maxAttempts)
    && (j.status == Processing ==> 1 <= j.attemptCount <= j.maxAttempts)
  }

  ghost predicate JobsInBudget(jobs: seq<Job>) { forall i :: 0 <= i < |jobs| ==> RowInBudget(jobs[i]) }

  ghost predicate InBudget(db: Db) { JobsInBudget(db.jobs) }

  // A manual retry stays in budget: a fresh job gets a positive maximum, a reused waiting job keeps
  // an attempt under the new maximum. A job in processing is not reused, and the run retried must exist.
  predicate RetryFits(db: Db, op: Op)
    requires op.Retry?
  {
    RunExists(db, Some(op.retryOf)) ==>
      match ActiveJob(db.jobs, op.address)
      case None => op.maxAttempts > 0
      case Some(i) => Waiting(db.jobs[i]) ==> db.jobs[i].attemptCount < op.maxAttempts
  }

  // The exact condition under which a manual retry keeps the budget.
  lemma RetryKeepsBudgetExactly(db: Db, op: Op)
    requires InBudget(db) && op.Retry?
    ensures InBudget(Apply(db, op)) <==> RetryFits(db, op)
  {
    var after := Apply(db, op);
    if !RunExists(db, Some(op.retryOf)) { return; }
    match ActiveJob(db.jobs, op.address)
    case None =>
      assert RowInBudget(after.jobs[|db.jobs|]) <==> op.maxAttempts > 0;
    case Some(i) =>
      assert RowInBudget(after.jobs[i]) <==> RetryFits(db, op);
  }

  predicate EventFits(s: System, e: Event) {
    e.Env? ==> (e.op.Schedule? ==> e.op.maxAttempts > 0) && (e.op.Retry? ==> RetryFits(s.db, e.op))
  }

  // What a statement must respect: the worker loop sends only such marks.
  predicate OpFits(db: Db, op: Op) {
    && (op.Schedule? ==> op.maxAttempts > 0)
    && (op.Retry? ==> RetryFits(db, op))
    && (op.MarkRetryable? && Owns(db, op.worker, op.job) ==>
          db.jobs[op.job].attemptCount < db.jobs[op.job].maxAttempts)
  }

  lemma OpKeepsBudget(db: Db, op: Op)
    requires InBudget(db) && OpFits(db, op)
    ensures JobsInBudget(Apply(db, op).jobs)
  {
    if op.Retry? { RetryKeepsBudgetExactly(db, op); }
  }

  // The discipline is a consequence of the loop: the numbers a worker settles by are the row's.
  lemma LoopIsDisciplined(s: System, e: Event) returns (op: Op)
    requires SystemShape(s) && EventFits(s, e)
    ensures OpFits(s.db, op) && Next(s, e).db.jobs == Apply(s.db, op).jobs
    ensures Takes(s, e) ==> op == Claim(e.worker, e.ttl, e.skipped, e.pick)
    ensures op.Schedule? || op.Retry? ==> e == Env(op)
    ensures op.Claim? && op.pick.Some? && LegalPick(s.db, op.skipped, op.pick) ==> Takes(s, e) && e.pick == op.pick
  {
    op := EventIsOneStatement(s, e);
    if op.MarkRetryable? && Owns(s.db, op.worker, op.job) {
      assert HeldAgrees(s.db, e.worker, s.held[e.worker]);
    }
  }

  lemma NextKeepsBudget(s: System, e: Event)
    requires SystemShape(s) && InBudget(s.db) && EventFits(s, e)
    ensures JobsInBudget(Next(s, e).db.jobs)
  {
    var op := LoopIsDisciplined(s, e);
    OpKeepsBudget(s.db, op);
  }

  // In every reachable state a waiting job has attempts left and a processing job has used between one
  // and its maximum, as long as no retry lowers the maximum to attempts already used.
  lemma {:induction false} BudgetAlways(start: int, es: seq<Event>, k: nat)
    requires k <= |es|
    requires forall i :: 0 <= i < k ==> EventFits(SystemAt(Empty(start), es, i), es[i])
    ensures InBudget(SystemAt(Empty(start), es, k).db)
  {
    hide Next, EventFits, RowInBudget, SystemShape;
    if k > 0 {
      BudgetAlways(start, es, k - 1);
      SystemShapeAlways(start, es, k - 1);
      NextKeepsBudget(SystemAt(Empty(start), es, k - 1), es[k - 1]);
    }
  }

  // ---------- A lowered maximum overdraws the budget ----------

  function OverdrawRun(): seq<Event> {
    [Env(Schedule(1, 1, 1, 2, 0)), Take("worker", 60, {}, Some(0)), Start("worker", 0, true, true),
     Settle("worker", Errored("node down"), -30, true, true, false), Env(Retry(1, 1, 1, 1, 0, 0)),
     Take("worker", 60, {}, Some(0))]
  }

  lemma AttemptStarts(s: System)
    requires s.db.now == 0 && |s.db.jobs| == 1 && |s.db.runs| == 0
             && s.held == map["worker" := Held(0, 1, 2, false, None)]
    requires s.db.jobs[0].lockedBy == Some("worker") && s.db.jobs[0].leaseExpiresAt == Some(60)
             && s.db.jobs[0].status == Processing
    ensures var after := Next(s, Start("worker", 0, true, true));
            && after.db.now == 0 && after.db.jobs == [s.db.jobs[0].(lastScanRun := Some(0))]
            && after.db.runs == [ScanRun(0, Running, 0, None, None, false)]
            && after.held == map["worker" := Held(0, 1, 2, true, Some(0))]
  {
    assert Owns(s.db, "worker", 0);
  }

  // The failed attempt leaves its scan run failed, which a manual retry then names.
  lemma AttemptFails(s: System)
    requires s.db.now == 0 && |s.db.jobs| == 1 && |s.db.runs| == 1
             && s.held == map["worker" := Held(0, 1, 2, true, Some(0))]
    requires s.db.jobs[0].status == Processing && s.db.jobs[0].address == 1
    requires s.db.jobs[0].attemptCount == 1 && s.db.jobs[0].maxAttempts == 2
    requires s.db.jobs[0].lockedBy == Some("worker") && s.db.jobs[0].leaseExpiresAt == Some(60)
    ensures var after := Next(s, Settle("worker", Errored("node down"), -30, true, true, false));
            Lone(after, Retryable, 1, 2) && |after.db.runs| == 1 && after.db.runs[0].status == Failed
  {
    assert Settles(s.db, SettleOp("worker", s.held["worker"], Errored("node down"), -30), 0);
  }

  lemma RetryReadies(s: System)
    requires Lone(s, Retryable, 1, 2) && |s.db.runs| == 1
    ensures var after := Next(s, Env(Retry(1, 1, 1, 1, 0, 0)));
            Lone(after, Pending, 1, 1) && after.db.jobs[0].nextAttemptAt == 0
  {
    assert ActiveJob(s.db.jobs, 1) == Some(0);
  }

  // With a maximum lowered between the calls, a retry readies a spent job and it is handed out a second
  // time although its row then allows one attempt.
  lemma LoweredMaximumOverdraws(es: seq<Event>)
    requires es == OverdrawRun()
    ensures SystemAt(Empty(0), es, 4).db.runs != [] && SystemAt(Empty(0), es, 4).db.runs[0].status == Failed
    ensures var db := SystemAt(Empty(0), es, 6).db;
            |db.jobs| == 1 && db.jobs[0].status == Processing
            && db.jobs[0].attemptCount == 2 && db.jobs[0].maxAttempts == 1
  {
    hide Next, SystemAt;
    assert SystemAt(Empty(0), es, 0) == Empty(0) by { StartsEmpty(es); }
    Advance(es, 0);
    ScheduleFirst();
    Advance(es, 1);
    TakeTheOnly(SystemAt(Empty(0), es, 1), 0, 2);
    Advance(es, 2);
    AttemptStarts(SystemAt(Empty(0), es, 2));
    Advance(es, 3);
    AttemptFails(SystemAt(Empty(0), es, 3));
    Advance(es, 4);
    RetryReadies(SystemAt(Empty(0), es, 4));
    Advance(es, 5);
    TakeTheOnly(SystemAt(Empty(0), es, 5), 1, 1);
  }

  // ---------- One configured maximum ----------

  // Every insert and retry is configured with the same positive maximum.
  predicate Configured(e: Event, max: int) {
    e.Env? && (e.op.Schedule? || e.op.Retry?) ==> e.op.maxAttempts == max
  }

  ghost predicate UniformBudget(jobs: seq<Job>, max: int) {
    JobsInBudget(jobs) && forall i :: 0 <= i < |jobs| ==> jobs[i].maxAttempts == max
  }

  lemma ConfiguredFits(s: System, e: Event, max: int)
    requires UniformBudget(s.db.jobs, max) && max > 0 && Configured(e, max)
    ensures EventFits(s, e)
  {
  }

  lemma OpKeepsMaximum(db: Db, op: Op, max: int)
    requires forall i :: 0 <= i < |db.jobs| ==> db.jobs[i].maxAttempts == max
    requires op.Schedule? || op.Retry? ==> op.maxAttempts == max
    ensures forall i :: 0 <= i < |Apply(db, op).jobs| ==> Apply(db, op).jobs[i].maxAttempts == max
  {
  }

  lemma {:induction false} UniformBudgetAlways(start: int, es: seq<Event>, max: int, k: nat)
    requires k <= |es| && max > 0
    requires forall i :: 0 <= i < |es| ==> Configured(es[i], max)
    ensures SystemShape(SystemAt(Empty(start), es, k))
    ensures UniformBudget(SystemAt(Empty(start), es, k).db.jobs, max)
  {
    SystemShapeAlways(start, es, k);
    if k > 0 {
      UniformBudgetAlways(start, es, max, k - 1);
      var s := SystemAt(Empty(start), es, k - 1);
      ConfiguredFits(s, es[k - 1], max);
      NextKeepsBudget(s, es[k - 1]);
      var op := LoopIsDisciplined(s, es[k - 1]);
      OpKeepsMaximum(s.db, op, max);
    }
  }

  // Attempts a row may still use.
  function Left(j: Job, max: int): int { if Active(j) then max - j.attemptCount else 0 }

  function Potential(jobs: seq<Job>, max: int, n: nat): int
    requires n <= |jobs|
  {
    if n == 0 then 0 else Potential(jobs, max, n - 1) + Left(jobs[n - 1], max)
  }

  lemma {:induction false} PotentialDrops(a: seq<Job>, b: seq<Job>, max: int, n: nat, pick: Option<JobId>)
    requires n <= |a| && n <= |b|
    requires forall i :: 0 <= i < n ==> Left(b[i], max) <= Left(a[i], max) - (if pick == Some(i) then 1 else 0)
    ensures Potential(b, max, n) <= Potential(a, max, n) - (if pick.Some? && pick.value < n then 1 else 0)
  {
    if n > 0 { PotentialDrops(a, b, max, n - 1, pick); }
  }

  // How many claims handed out a job in the first k events.
  ghost function Claims(s: System, es: seq<Event>, k: nat): nat
    requires k <= |es|
  {
    if k == 0 then 0 else Claims(s, es, k - 1) + (if Takes(SystemAt(s, es, k - 1), es[k - 1]) then 1 else 0)
  }

  function Spare(jobs: seq<Job>, max: int): int { Potential(jobs, max, |jobs|) }

  // The row a claim hands out.
  ghost function HandedOut(db: Db, op: Op): Option<JobId> {
    if op.Claim? && LegalPick(db, op.skipped, op.pick) then op.pick else None
  }

  lemma OpSpends(db: Db, op: Op, max: int)
    requires UniformBudget(db.jobs, max)
    requires op.Schedule? || op.Retry? ==> op.maxAttempts == max
    ensures |db.jobs| <= |Apply(db, op).jobs| <= |db.jobs| + 1
    ensures HandedOut(db, op).Some? ==> HandedOut(db, op).value < |db.jobs|
    ensures forall i :: 0 <= i < |db.jobs| ==>
              Left(Apply(db, op).jobs[i], max)
              <= Left(db.jobs[i], max) - (if HandedOut(db, op) == Some(i) then 1 else 0)
    ensures |Apply(db, op).jobs| > |db.jobs| ==> Left(Apply(db, op).jobs[|db.jobs|], max) == max
  {
    assert forall i :: 0 <= i < |db.jobs| ==> RowInBudget(db.jobs[i]);
  }

  lemma OpPotential(db: Db, op: Op, max: int)
    requires UniformBudget(db.jobs, max)
    requires op.Schedule? || op.Retry? ==> op.maxAttempts == max
    ensures Spare(Apply(db, op).jobs, max) + (if HandedOut(db, op).Some? then 1 else 0)
            <= Spare(db.jobs, max) + (if |Apply(db, op).jobs| > |db.jobs| then max else 0)
    ensures |db.jobs| <= |Apply(db, op).jobs| <= |db.jobs| + 1
  {
    OpSpends(db, op, max);
    var after := Apply(db, op).jobs;
    PotentialDrops(db.jobs, after, max, |db.jobs|, HandedOut(db, op));
    if |after| > |db.jobs| {
      assert Spare(after, max) == Potential(after, max, |db.jobs|) + Left(after[|db.jobs|], max);
    }
  }

  lemma EventSpends(s: System, e: Event, max: int)
    requires SystemShape(s) && UniformBudget(s.db.jobs, max) && max > 0 && Configured(e, max)
    ensures Spare(Next(s, e).db.jobs, max) + (if Takes(s, e) then 1 else 0)
            <= Spare(s.db.jobs, max) + (if |Next(s, e).db.jobs| > |s.db.jobs| then max else 0)
    ensures |s.db.jobs| <= |Next(s, e).db.jobs| <= |s.db.jobs| + 1
  {
    ConfiguredFits(s, e, max);
    var op := LoopIsDisciplined(s, e);
    OpPotential(s.db, op, max);
  }

  // The attempts n inserted jobs bring in.
  function Grant(max: int, n: nat): int { if n == 0 then 0 else Grant(max, n - 1) + max }

  lemma {:induction false} GrantIsProduct(max: int, n: nat)
    ensures Grant(max, n) == max * n
  {
    if n > 0 { GrantIsProduct(max, n - 1); }
  }

  // Claims made plus attempts left, less what the inserted jobs brought in.
  ghost function Account(s: System, es: seq<Event>, max: int, k: nat): int
    requires k <= |es|
  {
    var jobs := SystemAt(s, es, k).db.jobs;
    Claims(s, es, k) + Spare(jobs, max) - Grant(max, |jobs|)
  }

  lemma AccountStep(start: int, es: seq<Event>, max: int, k: nat)
    requires k < |es| && max > 0
    requires forall i :: 0 <= i < |es| ==> Configured(es[i], max)
    ensures Account(Empty(start), es, max, k + 1) <= Account(Empty(start), es, max, k)
  {
    UniformBudgetAlways(start, es, max, k);
    var s := SystemAt(Empty(start), es, k);
    EventSpends(s, es[k], max);
  }

  lemma {:induction false} AccountFalls(start: int, es: seq<Event>, max: int, k1: nat, k2: nat)
    requires k1 <= k2 <= |es| && max > 0
    requires forall i :: 0 <= i < |es| ==> Configured(es[i], max)
    ensures Account(Empty(start), es, max, k2) <= Account(Empty(start), es, max, k1)
  {
    if k1 < k2 {
      AccountFalls(start, es, max, k1, k2 - 1);
      AccountStep(start, es, max, k2 - 1);
    }
  }

  ghost predicate Paid(claims: int, before: seq<Job>, after: seq<Job>, max: int) {
    0 <= Spare(after, max) && claims + Spare(after, max) <= Spare(before, max) + max * (|after| - |before|)
  }

  lemma AccountIsPaid(c1: int, c2: int, a: seq<Job>, b: seq<Job>, max: int)
    requires c2 + Spare(b, max) - Grant(max, |b|) <= c1 + Spare(a, max) - Grant(max, |a|)
    requires Spare(b, max) >= 0
    ensures Paid(c2 - c1, a, b, max)
  {
    GrantIsProduct(max, |a|);
    GrantIsProduct(max, |b|);
    assert max * (|b| - |a|) == max * |b| - max * |a|;
  }

  // Claims are paid for: in any stretch of a run the claims that handed out a job, plus the attempts
  // still left on active jobs, never exceed the attempts left at its start plus one budget per inserted job.
  lemma ClaimsAreBounded(start: int, es: seq<Event>, max: int, k1: nat, k2: nat)
    requires k1 <= k2 <= |es| && max > 0
    requires forall i :: 0 <= i < |es| ==> Configured(es[i], max)
    ensures Paid(Claims(Empty(start), es, k2) - Claims(Empty(start), es, k1),
                 SystemAt(Empty(start), es, k1).db.jobs, SystemAt(Empty(start), es, k2).db.jobs, max)
  {
    var a := SystemAt(Empty(start), es, k1).db.jobs;
    var b := SystemAt(Empty(start), es, k2).db.jobs;
    AccountFalls(start, es, max, k1, k2);
    UniformBudgetAlways(start, es, max, k2);
    SpareNonNegative(b, max, |b|);
    AccountIsPaid(Claims(Empty(start), es, k1), Claims(Empty(start), es, k2), a, b, max);
  }

  lemma {:induction false} SpareNonNegative(jobs: seq<Job>, max: int, n: nat)
    requires n <= |jobs|
    requires forall i :: 0 <= i < |jobs| ==> RowInBudget(jobs[i]) && jobs[i].maxAttempts == max
    ensures Potential(jobs, max, n) >= 0
  {
    if n > 0 { SpareNonNegative(jobs, max, n - 1); }
  }
}
