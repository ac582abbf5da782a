/** The queue under its worker loop: each worker holds at most one claimed job, opens one scan run
    for it, and settles job and run in one transaction, choosing retry or dead letter by the attempt
    numbers it was handed. Everything else interleaves freely, and the reply to an insert or to a
    transaction may be lost after its commit. */
module ScanWorkers {
  import opened Wrappers
  import opened ScanJobs
  import opened ScanJobRuns
  import opened ScanJobEffects

  // What a worker remembers of its claim: whether it has tried to open a scan run, and the run if it learned of one.
  datatype Held = Held(job: JobId, attempt: nat, max: int, tried: bool, run: Option<RunId>)

  datatype System = System(db: Db, held: map<Worker, Held>)

  datatype Outcome = Scanned | LockedElsewhere | UnsupportedChain | Errored(message: string)

  datatype Event =
    | Env(op: Op)
    | Take(worker: Worker, ttl: nat, skipped: set<JobId>, pick: Option<JobId>)
    | Start(worker: Worker, startedAt: int, committed: bool, replied: bool)
    | Settle(worker: Worker, outcome: Outcome, at: int, committed: bool, replied: bool, audited: bool)
    | Crash(worker: Worker)

  // The statements that are not part of the worker's claim-to-settle sequence.
  predicate IsEnv(op: Op) { op.Tick? || op.Schedule? || op.Retry? || op.Renew? }

  function RunStatusOf(outcome: Outcome): RunStatus {
    match outcome
    case Scanned => Success
    case LockedElsewhere => Locked
    case UnsupportedChain => Unsupported
    case Errored(_) => Failed
  }

  function MessageOf(outcome: Outcome): Option<string> {
    if outcome.Errored? then Some(outcome.message) else None
  }

  function SettleOp(worker: Worker, h: Held, outcome: Outcome, at: int): (op: Op)
    ensures IsMark(op) && op.worker == worker && op.job == h.job && op.run == h.run
  {
    match outcome
    case Errored(message) =>
      if ShouldDeadLetter(h.attempt, h.max) then MarkDeadLetter(worker, h.job, message, h.run)
      else MarkRetryable(worker, h.job, NextAttemptAt(at, h.attempt), message, h.run)
    case _ => MarkSucceeded(worker, h.job, h.run)
  }

  ghost function FinishHeldRun(db: Db, run: Option<RunId>, status: RunStatus, at: int, message: Option<string>): Db {
    if run.Some? then Apply(db, FinishRun(run.value, status, at, message)) else db
  }

  // The worker's settling transaction is committed.
  ghost predicate Commits(db: Db, e: Event, h: Held) {
    e.Settle? && e.committed && Settles(db, SettleOp(e.worker, h, e.outcome, e.at), h.job)
  }

  // Job and run in one transaction, or neither.
  ghost function SettleTransaction(db: Db, e: Event, h: Held): Db
    requires e.Settle?
  {
    if Commits(db, e, h) then
      FinishHeldRun(Apply(db, SettleOp(e.worker, h, e.outcome, e.at)), h.run, RunStatusOf(e.outcome), e.at,
          MessageOf(e.outcome))
    else db
  }

  // When the worker does not learn of a commit it closes its run as failed, if that last statement gets through.
  ghost function SettleResult(db: Db, e: Event, h: Held): Db
    requires e.Settle?
  {
    var after := SettleTransaction(db, e, h);
    if !(Commits(db, e, h) && e.replied) && e.audited
    then FinishHeldRun(after, h.run, Failed, e.at, Some("scan job finalization failed"))
    else after
  }

  ghost predicate Takes(s: System, e: Event) {
    e.Take? && e.worker !in s.held && e.pick.Some? && LegalPick(s.db, e.skipped, e.pick)
  }

  // The one scan-run insert of a claim is committed for a live owner.
  ghost predicate Inserts(s: System, e: Event) {
    && e.Start? && e.committed && e.worker in s.held && !s.held[e.worker].tried
    && Owns(s.db, e.worker, s.held[e.worker].job)
  }

  ghost function Next(s: System, e: Event): System {
    match e
    case Env(op) => if IsEnv(op) then s.(db := Apply(s.db, op)) else s
    case Take(worker, ttl, skipped, pick) =>
      if worker in s.held then s
      else
        var db := Apply(s.db, Claim(worker, ttl, skipped, pick));
        if Takes(s, e) then
          System(db, s.held[worker := Held(pick.value, db.jobs[pick.value].attemptCount,
                                           db.jobs[pick.value].maxAttempts, false, None)])
        else s.(db := db)
    case Start(worker, startedAt, _, replied) =>
      if worker !in s.held || s.held[worker].tried then s
      else
        var h := s.held[worker].(tried := true);
        if Inserts(s, e) then
          System(Apply(s.db, InsertRun(worker, h.job, startedAt)),
                 s.held[worker := if replied then h.(run := Some(|s.db.runs|)) else h])
        else s.(held := s.held[worker := h])
    case Settle(worker, _, _, _, _, _) =>
      if worker !in s.held then s
      else s.(db := SettleResult(s.db, e, s.held[worker]), held := s.held - {worker})
    case Crash(worker) => s.(held := s.held - {worker})
  }

  ghost function SystemAt(s: System, es: seq<Event>, k: nat): System
    requires k <= |es|
  {
    if k == 0 then s else Next(SystemAt(s, es, k - 1), es[k - 1])
  }

  function Empty(start: int): System { System(Db(start, [], []), map[]) }

  // ---------- Memory and rows agree ----------

  ghost predicate RunsLinked(db: Db) {
    forall i :: 0 <= i < |db.jobs| && db.jobs[i].lastScanRun.Some? ==>
      db.jobs[i].lastScanRun.value < |db.runs| && db.runs[db.jobs[i].lastScanRun.value].task == i
  }

  ghost predicate IsRunning(db: Db, run: Option<RunId>) {
    run.Some? && run.value < |db.runs| && db.runs[run.value].status == Running
  }

  // No job that is not being processed points at a running scan run.
  ghost predicate OnlyProcessingRuns(db: Db) {
    forall i :: 0 <= i < |db.jobs| && db.jobs[i].status != Processing ==> !IsRunning(db, db.jobs[i].lastScanRun)
  }

  // The worker still has the attempt it remembers.
  predicate SameClaim(j: Job, worker: Worker, h: Held) {
    j.status == Processing && j.lockedBy == Some(worker) && j.attemptCount == h.attempt
  }

  // What a worker remembers of a live claim is what the row says, and a run it remembers is running only while it is
  // the latest run of that claim. Before it tries to open a run its job has no running one.
  ghost predicate HeldAgrees(db: Db, worker: Worker, h: Held) {
    && h.job < |db.jobs|
    && (h.run.Some? ==> h.tried && h.run.value < |db.runs| && db.runs[h.run.value].task == h.job)
    && (var j := db.jobs[h.job];
        && h.attempt <= j.attemptCount
        && (j.status == Processing && j.lockedBy == Some(worker) ==>
              && j.attemptCount == h.attempt && j.maxAttempts == h.max
              && (h.run.Some? ==> j.lastScanRun == h.run)
              && (!h.tried ==> !IsRunning(db, j.lastScanRun)))
        && (IsRunning(db, h.run) ==> SameClaim(j, worker, h) && j.lastScanRun == h.run))
  }

  ghost predicate HeldAllAgree(s: System) { forall w :: w in s.held ==> HeldAgrees(s.db, w, s.held[w]) }

  ghost predicate LinkShape(s: System) { RunsLinked(s.db) && OnlyProcessingRuns(s.db) && HeldAllAgree(s) }

  ghost predicate SystemShape(s: System) { QueueShape(s.db) && LinkShape(s) }

  // A step that leaves runs, claims and links alone.
  ghost predicate SameClaims(a: Db, b: Db) {
    && a.runs == b.runs && |a.jobs| <= |b.jobs|
    && (forall i :: |a.jobs| <= i < |b.jobs| ==> b.jobs[i].lastScanRun.None? && b.jobs[i].status == Pending)
    && forall i :: 0 <= i < |a.jobs| ==>
         var x := a.jobs[i]; var y := b.jobs[i];
         && x.lastScanRun == y.lastScanRun && x.attemptCount == y.attemptCount
         && (x.status == Processing <==> y.status == Processing)
         && (x.status == Processing ==> x.lockedBy == y.lockedBy && x.maxAttempts == y.maxAttempts)
  }

  lemma EnvSameClaims(db: Db, op: Op)
    requires IsEnv(op)
    ensures SameClaims(db, Apply(db, op))
  {
  }

  lemma SameClaimsKeepLinks(s: System, db: Db)
    requires LinkShape(s) && SameClaims(s.db, db)
    ensures LinkShape(s.(db := db))
  {
  }

  lemma TakeKeepsHeld(db: Db, worker: Worker, ttl: nat, skipped: set<JobId>, pick: Option<JobId>, w: Worker, h: Held)
    requires LegalPick(db, skipped, pick) && w != worker && HeldAgrees(db, w, h)
    ensures HeldAgrees(ClaimResult(db, worker, ttl, pick), w, h)
  {
    var after := ClaimResult(db, worker, ttl, pick);
    assert after.jobs[h.job] == ClaimedJob(db, worker, ttl, pick, h.job);
    assert forall r :: 0 <= r < |db.runs| ==> after.runs[r] == ClaimedRun(db, pick, r);
  }

  lemma TakenIsHeld(db: Db, worker: Worker, ttl: nat, skipped: set<JobId>, p: JobId)
    requires LegalPick(db, skipped, Some(p))
    ensures var after := ClaimResult(db, worker, ttl, Some(p));
            HeldAgrees(after, worker, Held(p, after.jobs[p].attemptCount, after.jobs[p].maxAttempts, false, None))
  {
    var after := ClaimResult(db, worker, ttl, Some(p));
    assert after.jobs[p] == ClaimedJob(db, worker, ttl, Some(p), p);
    assert forall r :: 0 <= r < |db.runs| ==> after.runs[r] == ClaimedRun(db, Some(p), r);
  }

  lemma TakeKeepsRuns(db: Db, worker: Worker, ttl: nat, skipped: set<JobId>, pick: Option<JobId>)
    requires LegalPick(db, skipped, pick) && RunsLinked(db) && OnlyProcessingRuns(db)
    ensures var after := ClaimResult(db, worker, ttl, pick);
            RunsLinked(after) && OnlyProcessingRuns(after) && |after.runs| == |db.runs|
  {
    var after := ClaimResult(db, worker, ttl, pick);
    forall i | 0 <= i < |after.jobs| && after.jobs[i].lastScanRun.Some?
      ensures after.jobs[i].lastScanRun.value < |after.runs| && after.runs[after.jobs[i].lastScanRun.value].task == i
      ensures after.jobs[i].status != Processing ==> !IsRunning(after, after.jobs[i].lastScanRun)
    {
      assert after.jobs[i] == ClaimedJob(db, worker, ttl, pick, i);
      var r := db.jobs[i].lastScanRun.value;
      assert after.runs[r] == ClaimedRun(db, pick, r);
    }
  }

  lemma TakeKeepsLinks(s: System, e: Event)
    requires LinkShape(s) && e.Take?
    ensures LinkShape(Next(s, e))
  {
    hide ClaimResult, HeldAgrees, RunsLinked, OnlyProcessingRuns, LegalPick;
    if e.worker !in s.held && LegalPick(s.db, e.skipped, e.pick) {
      TakeKeepsRuns(s.db, e.worker, e.ttl, e.skipped, e.pick);
      forall w | w in s.held ensures HeldAgrees(Next(s, e).db, w, s.held[w]) {
        TakeKeepsHeld(s.db, e.worker, e.ttl, e.skipped, e.pick, w, s.held[w]);
      }
      if e.pick.Some? { TakenIsHeld(s.db, e.worker, e.ttl, e.skipped, e.pick.value); }
    }
  }

  lemma OpenedKeepsRuns(db: Db, worker: Worker, job: JobId, startedAt: int)
    requires RunsLinked(db) && OnlyProcessingRuns(db) && Owns(db, worker, job)
    ensures var after := Apply(db, InsertRun(worker, job, startedAt)); RunsLinked(after) && OnlyProcessingRuns(after)
  {
    var after := ApplyInsertRun(db, InsertRun(worker, job, startedAt));
    forall i | 0 <= i < |after.jobs| && after.jobs[i].status != Processing
      ensures !IsRunning(after, after.jobs[i].lastScanRun)
    {
      assert after.jobs[i] == db.jobs[i] && !IsRunning(db, db.jobs[i].lastScanRun);
    }
  }

  lemma OpenedKeepsHeld(db: Db, worker: Worker, job: JobId, startedAt: int, w: Worker, h: Held)
    requires RunsLinked(db) && Owns(db, worker, job) && w != worker && HeldAgrees(db, w, h)
    ensures HeldAgrees(Apply(db, InsertRun(worker, job, startedAt)), w, h)
  {
  }

  lemma OpenedIsHeld(db: Db, worker: Worker, h: Held, startedAt: int, replied: bool)
    requires Owns(db, worker, h.job) && HeldAgrees(db, worker, h) && !h.tried
    ensures HeldAgrees(Apply(db, InsertRun(worker, h.job, startedAt)), worker,
                       if replied then h.(tried := true, run := Some(|db.runs|)) else h.(tried := true))
  {
  }

  lemma StartKeepsLinks(s: System, e: Event)
    requires LinkShape(s) && e.Start?
    ensures LinkShape(Next(s, e))
  {
    hide Apply, RunsLinked, OnlyProcessingRuns;
    if Inserts(s, e) {
      var h := s.held[e.worker];
      assert HeldAgrees(s.db, e.worker, h);
      OpenedKeepsRuns(s.db, e.worker, h.job, e.startedAt);
      OpenedIsHeld(s.db, e.worker, h, e.startedAt, e.replied);
      forall w | w in s.held && w != e.worker
        ensures HeldAgrees(Next(s, e).db, w, s.held[w])
      {
        OpenedKeepsHeld(s.db, e.worker, h.job, e.startedAt, w, s.held[w]);
      }
    }
  }

  lemma FinishKeepsHeld(db: Db, run: Option<RunId>, status: RunStatus, at: int, message: Option<string>, w: Worker,
      h: Held)
    requires HeldAgrees(db, w, h) && status != Running
    ensures HeldAgrees(FinishHeldRun(db, run, status, at, message), w, h)
  {
  }

  lemma FinishKeepsRuns(db: Db, run: Option<RunId>, status: RunStatus, at: int, message: Option<string>)
    requires RunsLinked(db) && OnlyProcessingRuns(db) && status != Running
    ensures var after := FinishHeldRun(db, run, status, at, message); RunsLinked(after) && OnlyProcessingRuns(after)
  {
  }

  // Closing a run keeps rows, runs and memories consistent.
  lemma FinishKeepsLinks(s: System, run: Option<RunId>, status: RunStatus, at: int, message: Option<string>)
    requires LinkShape(s) && status != Running
    ensures LinkShape(s.(db := FinishHeldRun(s.db, run, status, at, message)))
  {
    hide FinishHeldRun, HeldAgrees, RunsLinked, OnlyProcessingRuns;
    FinishKeepsRuns(s.db, run, status, at, message);
    forall w | w in s.held ensures HeldAgrees(FinishHeldRun(s.db, run, status, at, message), w, s.held[w]) {
      FinishKeepsHeld(s.db, run, status, at, message, w, s.held[w]);
    }
  }

  // A job has left processing pointing at its closed run; nothing else changed.
  ghost predicate LeftProcessing(db: Db, after: Db, job: JobId, run: Option<RunId>) {
    && job < |db.jobs| == |after.jobs| && |after.runs| == |db.runs|
    && (forall i :: 0 <= i < |db.jobs| && i != job ==> after.jobs[i] == db.jobs[i])
    && (forall r :: 0 <= r < |db.runs| && run != Some(r) ==> after.runs[r] == db.runs[r])
    && after.jobs[job].status != Processing && after.jobs[job].lastScanRun == run
    && after.jobs[job].attemptCount == db.jobs[job].attemptCount
    && (run.Some? ==> run.value < |db.runs| && after.runs[run.value].status != Running
                      && after.runs[run.value].task == db.runs[run.value].task)
  }

  lemma SettlingLeavesProcessing(db: Db, e: Event, h: Held)
    requires Commits(db, e, h)
    ensures LeftProcessing(db, SettleTransaction(db, e, h), h.job, h.run)
  {
  }

  lemma LeavingKeepsHeld(db: Db, after: Db, job: JobId, run: Option<RunId>, worker: Worker, w: Worker, h: Held)
    requires LeftProcessing(db, after, job, run) && db.jobs[job].lockedBy == Some(worker)
    requires RunsLinked(db)
    requires run.Some? ==> db.runs[run.value].task == job
    requires w != worker && HeldAgrees(db, w, h)
    ensures HeldAgrees(after, w, h)
  {
  }

  lemma LeavingKeepsRuns(db: Db, after: Db, job: JobId, run: Option<RunId>)
    requires LeftProcessing(db, after, job, run) && RunsLinked(db) && OnlyProcessingRuns(db)
    requires run.Some? ==> db.runs[run.value].task == job
    ensures RunsLinked(after) && OnlyProcessingRuns(after)
  {
    forall i | 0 <= i < |after.jobs| && after.jobs[i].status != Processing
      ensures !IsRunning(after, after.jobs[i].lastScanRun)
    {
      if i != job { assert !IsRunning(db, db.jobs[i].lastScanRun); }
    }
  }

  lemma SettledKeepsLinks(s: System, e: Event)
    requires LinkShape(s) && e.Settle? && e.worker in s.held && Commits(s.db, e, s.held[e.worker])
    ensures LinkShape(System(SettleTransaction(s.db, e, s.held[e.worker]), s.held - {e.worker}))
  {
    hide SettleTransaction, LeftProcessing, RunsLinked, OnlyProcessingRuns;
    var h := s.held[e.worker];
    var after := SettleTransaction(s.db, e, h);
    assert HeldAgrees(s.db, e.worker, h);
    SettlingLeavesProcessing(s.db, e, h);
    LeavingKeepsRuns(s.db, after, h.job, h.run);
    forall w | w in s.held && w != e.worker
      ensures HeldAgrees(after, w, s.held[w])
    {
      LeavingKeepsHeld(s.db, after, h.job, h.run, e.worker, w, s.held[w]);
    }
  }

  lemma SettleKeepsLinks(s: System, e: Event)
    requires LinkShape(s) && e.Settle?
    ensures LinkShape(Next(s, e))
  {
    hide HeldAgrees, RunsLinked, OnlyProcessingRuns, FinishHeldRun;
    if e.worker in s.held {
      var h := s.held[e.worker];
      if Commits(s.db, e, h) { SettledKeepsLinks(s, e); }
      var settled := System(SettleTransaction(s.db, e, h), s.held - {e.worker});
      FinishKeepsLinks(settled, h.run, Failed, e.at, Some("scan job finalization failed"));
    }
  }

  // The statement an event sends to the queue first; the rest only touches scan runs.
  ghost predicate QueueStep(s: System, e: Event, op: Op) {
    Next(s, e).db.jobs == Apply(s.db, op).jobs && Next(s, e).db.now == Apply(s.db, op).now
    && |Next(s, e).db.runs| == |Apply(s.db, op).runs|
  }

  // Every event is, on the job table, exactly one of the queue's statements.
  lemma EventIsOneStatement(s: System, e: Event) returns (op: Op)
    ensures QueueStep(s, e, op)
    ensures e.Env? && IsEnv(e.op) ==> op == e.op
    ensures e.Take? && e.worker !in s.held ==> op == Claim(e.worker, e.ttl, e.skipped, e.pick)
    ensures e.Settle? && e.worker in s.held ==>
              op == if e.committed then SettleOp(e.worker, s.held[e.worker], e.outcome, e.at) else Tick(0)
    ensures (e.Start? || e.Crash? || (e.Env? && !IsEnv(e.op))) ==> op.InsertRun? || op == Tick(0)
    ensures e.Take? && e.worker in s.held ==> op == Tick(0)
    ensures e.Settle? && e.worker !in s.held ==> op == Tick(0)
  {
    match e
    case Env(o) => op := if IsEnv(o) then o else Tick(0);
    case Take(worker, ttl, skipped, pick) =>
      op := if worker in s.held then Tick(0) else Claim(worker, ttl, skipped, pick);
    case Start(worker, startedAt, _, _) =>
      op := if !Inserts(s, e) then Tick(0)
            else InsertRun(worker, s.held[worker].job, startedAt);
    case Settle(worker, outcome, at, committed, _, _) =>
      op := if worker !in s.held || !committed then Tick(0) else SettleOp(worker, s.held[worker], outcome, at);
    case Crash(_) => op := Tick(0);
  }

  lemma NextKeepsQueueShape(s: System, e: Event)
    requires QueueShape(s.db)
    ensures QueueShape(Next(s, e).db)
  {
    var op := EventIsOneStatement(s, e);
    StepKeepsShape(s.db, op);
    assert QueueShape(Apply(s.db, op));
  }

  lemma NextKeepsShape(s: System, e: Event)
    requires SystemShape(s)
    ensures SystemShape(Next(s, e))
  {
    NextKeepsQueueShape(s, e);
    match e
    case Env(op) =>
      if IsEnv(op) { EnvSameClaims(s.db, op); SameClaimsKeepLinks(s, Apply(s.db, op)); }
    case Take(_, _, _, _) => TakeKeepsLinks(s, e);
    case Start(_, _, _, _) => StartKeepsLinks(s, e);
    case Settle(_, _, _, _, _, _) => SettleKeepsLinks(s, e);
    case Crash(_) =>
  }

  // In every reachable state what a worker remembers of a live claim is what the row says, and no job that
  // is waiting, succeeded or dead-lettered points at a running scan run.
  lemma {:induction false} SystemShapeAlways(start: int, es: seq<Event>, k: nat)
    requires k <= |es|
    ensures SystemShape(SystemAt(Empty(start), es, k))
  {
    hide Next, SystemShape;
    if k > 0 {
      SystemShapeAlways(start, es, k - 1);
      NextKeepsShape(SystemAt(Empty(start), es, k - 1), es[k - 1]);
    } else {
      EmptyHasShape(start);
    }
  }

  lemma EmptyHasShape(start: int)
    ensures SystemShape(Empty(start))
  {
  }

  // A scan run keeps its job and start time, and once closed it is never running again.
  ghost predicate RunsEvolved(a: Db, b: Db) {
    |a.runs| <= |b.runs|
    && forall r :: 0 <= r < |a.runs| ==>
         && a.runs[r].task == b.runs[r].task && a.runs[r].startedAt == b.runs[r].startedAt
         && (a.runs[r].status != Running ==> b.runs[r].status != Running)
  }

  lemma FinishEvolvesRuns(db: Db, run: Option<RunId>, status: RunStatus, at: int, message: Option<string>)
    requires status != Running
    ensures RunsEvolved(db, FinishHeldRun(db, run, status, at, message))
  {
  }

  lemma NextEvolvesRuns(s: System, e: Event)
    ensures RunsEvolved(s.db, Next(s, e).db)
  {
    hide LegalPick, Settles;
    if e.Settle? && e.worker in s.held {
      hide FinishHeldRun;
      var h := s.held[e.worker];
      var after := SettleTransaction(s.db, e, h);
      FinishEvolvesRuns(Apply(s.db, SettleOp(e.worker, h, e.outcome, e.at)), h.run, RunStatusOf(e.outcome), e.at,
          MessageOf(e.outcome));
      assert RunsEvolved(s.db, after);
      FinishEvolvesRuns(after, h.run, Failed, e.at, Some("scan job finalization failed"));
    }
  }

  lemma {:induction false} RunsStayClosed(s: System, es: seq<Event>, k1: nat, k2: nat)
    requires k1 <= k2 <= |es|
    ensures RunsEvolved(SystemAt(s, es, k1).db, SystemAt(s, es, k2).db)
  {
    hide Next;
    if k1 < k2 {
      RunsStayClosed(s, es, k1, k2 - 1);
      NextEvolvesRuns(SystemAt(s, es, k2 - 1), es[k2 - 1]);
    }
  }

  // ---------- Which scan runs are running ----------

  // The latest run of a job that is being processed.
  ghost predicate Latest(db: Db, r: RunId) {
    && r < |db.runs| && db.runs[r].task < |db.jobs|
    && db.jobs[db.runs[r].task].status == Processing && db.jobs[db.runs[r].task].lastScanRun == Some(r)
  }

  // A running scan run no job points at and no worker knows of.
  ghost predicate Orphan(s: System, r: RunId) {
    && IsRunning(s.db, Some(r))
    && (forall i :: 0 <= i < |s.db.jobs| ==> s.db.jobs[i].lastScanRun != Some(r))
    && (forall w :: w in s.held ==> s.held[w].run != Some(r))
  }

  // A worker's settling is committed for a job whose running scan run it has not learned of.
  ghost predicate OrphanedBy(s: System, e: Event, r: RunId) {
    && e.Settle? && e.worker in s.held && Commits(s.db, e, s.held[e.worker])
    && s.held[e.worker].run.None? && IsRunning(s.db, Some(r))
    && s.db.jobs[s.held[e.worker].job].lastScanRun == Some(r)
  }

  // In every reachable state a running scan run is the latest run of a job in processing, or an orphan.
  lemma RunningIsLatestOrOrphan(s: System, r: RunId)
    requires LinkShape(s) && IsRunning(s.db, Some(r))
    ensures Latest(s.db, r) <==> !Orphan(s, r)
  {
    if !Latest(s.db, r) {
      forall i | 0 <= i < |s.db.jobs| ensures s.db.jobs[i].lastScanRun != Some(r) {
        assert s.db.jobs[i].status != Processing ==> !IsRunning(s.db, s.db.jobs[i].lastScanRun);
      }
      forall w | w in s.held ensures s.held[w].run != Some(r) {
        assert HeldAgrees(s.db, w, s.held[w]);
      }
    }
  }

  // A committed settling, with whatever the worker writes afterwards.
  lemma NextLeavesProcessing(s: System, e: Event)
    requires e.Settle? && e.worker in s.held && Commits(s.db, e, s.held[e.worker])
    ensures LeftProcessing(s.db, Next(s, e).db, s.held[e.worker].job, s.held[e.worker].run)
    ensures Next(s, e).held == s.held - {e.worker}
  {
    hide SettleTransaction;
    SettlingLeavesProcessing(s.db, e, s.held[e.worker]);
  }

  // The exact outcome of a committed settling: the job's running scan run is orphaned if and only if the worker settles
  // without knowing a run, and is closed otherwise.
  lemma SettlingOrphansExactly(s: System, e: Event, r: RunId)
    requires LinkShape(s) && IsRunning(s.db, Some(r)) && Latest(s.db, r)
    requires e.Settle? && e.worker in s.held && Commits(s.db, e, s.held[e.worker])
    requires s.held[e.worker].job == s.db.runs[r].task
    ensures Orphan(Next(s, e), r) <==> s.held[e.worker].run.None?
    ensures r < |Next(s, e).db.runs|
    ensures s.held[e.worker].run.Some? ==> Next(s, e).db.runs[r].status != Running
  {
    hide Next, RunsLinked, OnlyProcessingRuns;
    assert HeldAgrees(s.db, e.worker, s.held[e.worker]);
    NextLeavesProcessing(s, e);
    if s.held[e.worker].run.None? { SettledIsOrphaned(s, e, r); }
  }

  lemma SettledIsOrphaned(s: System, e: Event, r: RunId)
    requires LinkShape(s) && OrphanedBy(s, e, r)
    ensures Orphan(Next(s, e), r)
  {
    hide Next, OnlyProcessingRuns;
    NextLeavesProcessing(s, e);
    forall w | w in s.held && w != e.worker ensures s.held[w].run != Some(r) {
      assert HeldAgrees(s.db, w, s.held[w]);
    }
  }

  // Every claim that hands out or dead-letters the job closes its running scan run, whoever knows of it.
  lemma ReclaimCloses(s: System, e: Event, r: RunId)
    requires Latest(s.db, r) && e.Take? && e.worker !in s.held && LegalPick(s.db, e.skipped, e.pick)
    requires e.pick == Some(s.db.runs[r].task) || Exhausted(s.db.jobs[s.db.runs[r].task], s.db.now)
    ensures r < |Next(s, e).db.runs| && Next(s, e).db.runs[r].status != Running
  {
    var after := ClaimResult(s.db, e.worker, e.ttl, e.pick);
    assert after.runs[r] == ClaimedRun(s.db, e.pick, r);
  }

  // ---------- Orphans, step by step ----------

  lemma EnvOrphans(s: System, e: Event, r: RunId)
    requires e.Env?
    ensures Orphan(Next(s, e), r) <==> Orphan(s, r)
  {
    if IsEnv(e.op) { EnvSameClaims(s.db, e.op); }
    var after := Next(s, e).db;
    assert forall i :: 0 <= i < |s.db.jobs| ==> after.jobs[i].lastScanRun == s.db.jobs[i].lastScanRun;
  }

  lemma TakeOrphans(s: System, e: Event, r: RunId)
    requires LinkShape(s) && e.Take?
    ensures Orphan(Next(s, e), r) <==> Orphan(s, r)
  {
    hide HeldAgrees, OnlyProcessingRuns;
    if e.worker !in s.held && LegalPick(s.db, e.skipped, e.pick) {
      var after := ClaimResult(s.db, e.worker, e.ttl, e.pick);
      assert forall i :: 0 <= i < |s.db.jobs| ==> after.jobs[i] == ClaimedJob(s.db, e.worker, e.ttl, e.pick, i);
      assert forall i :: 0 <= i < |s.db.jobs| ==> after.jobs[i].lastScanRun == s.db.jobs[i].lastScanRun;
      if r < |s.db.runs| { assert after.runs[r] == ClaimedRun(s.db, e.pick, r); }
      TakeKnows(s, e, r);
    }
  }

  lemma TakeKnows(s: System, e: Event, r: RunId)
    requires e.Take?
    ensures (forall w :: w in s.held ==> s.held[w].run != Some(r))
            <==> (forall w :: w in Next(s, e).held ==> Next(s, e).held[w].run != Some(r))
  {
    hide LegalPick, Apply;
    forall w | w in s.held ensures w in Next(s, e).held && Next(s, e).held[w] == s.held[w] {}
  }

  lemma StartOrphans(s: System, e: Event, r: RunId)
    requires LinkShape(s) && e.Start?
    ensures Orphan(Next(s, e), r) <==> Orphan(s, r)
  {
    hide RunsLinked, OnlyProcessingRuns;
    if e.worker in s.held && !s.held[e.worker].tried {
      var h := s.held[e.worker];
      var t := Next(s, e);
      assert HeldAgrees(s.db, e.worker, h);
      assert h.run.None?;
      forall w | w in s.held && w != e.worker ensures t.held[w] == s.held[w] {}
      if Inserts(s, e) {
        assert t.db.jobs[h.job].lastScanRun == Some(|s.db.runs|);
        assert forall i :: 0 <= i < |s.db.jobs| && i != h.job ==> t.db.jobs[i] == s.db.jobs[i];
        InsertReplacesNoRunning(s, e, r);
      }
    }
  }

  lemma InsertReplacesNoRunning(s: System, e: Event, r: RunId)
    requires LinkShape(s) && Inserts(s, e)
    ensures IsRunning(s.db, Some(r)) ==> s.db.jobs[s.held[e.worker].job].lastScanRun != Some(r)
  {
    assert HeldAgrees(s.db, e.worker, s.held[e.worker]);
  }

  lemma SettleOrphans(s: System, e: Event, r: RunId)
    requires LinkShape(s) && e.Settle?
    ensures Orphan(Next(s, e), r) <==> Orphan(s, r) || OrphanedBy(s, e, r)
  {
    hide Orphan, LinkShape;
    if e.worker in s.held {
      if Commits(s.db, e, s.held[e.worker]) {
        CommittedOrphans(s, e, r);
      } else {
        UncommittedOrphans(s, e, r);
      }
    }
  }

  lemma CommittedOrphans(s: System, e: Event, r: RunId)
    requires LinkShape(s) && e.Settle? && e.worker in s.held && Commits(s.db, e, s.held[e.worker])
    ensures Orphan(Next(s, e), r) <==> Orphan(s, r) || OrphanedBy(s, e, r)
  {
    hide Next, RunsLinked, OnlyProcessingRuns;
    var h := s.held[e.worker];
    var t := Next(s, e);
    assert HeldAgrees(s.db, e.worker, h);
    NextLeavesProcessing(s, e);
    if OrphanedBy(s, e, r) { SettledIsOrphaned(s, e, r); }
    assert forall w :: w in t.held <==> w in s.held && w != e.worker;
    assert forall i :: 0 <= i < |s.db.jobs| && i != h.job ==> t.db.jobs[i] == s.db.jobs[i];
  }

  lemma UncommittedOrphans(s: System, e: Event, r: RunId)
    requires LinkShape(s) && e.Settle? && e.worker in s.held && !Commits(s.db, e, s.held[e.worker])
    ensures Orphan(Next(s, e), r) <==> Orphan(s, r)
  {
    hide RunsLinked, OnlyProcessingRuns;
    var h := s.held[e.worker];
    assert HeldAgrees(s.db, e.worker, h);
    var t := Next(s, e);
    assert t.db.jobs == s.db.jobs;
    assert forall w :: w in t.held <==> w in s.held && w != e.worker;
  }

  lemma CrashOrphans(s: System, e: Event, r: RunId)
    requires LinkShape(s) && e.Crash?
    ensures Orphan(Next(s, e), r) <==> Orphan(s, r)
  {
    hide RunsLinked, OnlyProcessingRuns;
    if e.worker in s.held { assert HeldAgrees(s.db, e.worker, s.held[e.worker]); }
    assert forall w :: w in Next(s, e).held <==> w in s.held && w != e.worker;
  }

  lemma NextOrphans(s: System, e: Event, r: RunId)
    requires LinkShape(s)
    ensures Orphan(Next(s, e), r) <==> Orphan(s, r) || OrphanedBy(s, e, r)
  {
    hide Next, Orphan, LinkShape;
    match e
    case Env(_) => EnvOrphans(s, e, r);
    case Take(_, _, _, _) => TakeOrphans(s, e, r);
    case Start(_, _, _, _) => StartOrphans(s, e, r);
    case Settle(_, _, _, _, _, _) => SettleOrphans(s, e, r);
    case Crash(_) => CrashOrphans(s, e, r);
  }

  // Over every run, a scan run is an orphan - running for good, known to nobody - if and only if at some earlier moment
  // a worker that had not learned of it settled its job.
  lemma {:induction false} OrphanedExactly(start: int, es: seq<Event>, r: RunId, k: nat)
    requires k <= |es|
    ensures Orphan(SystemAt(Empty(start), es, k), r)
            <==> exists j :: 0 <= j < k && OrphanedBy(SystemAt(Empty(start), es, j), es[j], r)
  {
    hide Next, Orphan, OrphanedBy, LinkShape;
    if k == 0 {
      assert !Orphan(Empty(start), r) by { NoOrphans(start, r); }
    } else {
      OrphanedExactly(start, es, r, k - 1);
      SystemShapeAlways(start, es, k - 1);
      NextOrphans(SystemAt(Empty(start), es, k - 1), es[k - 1], r);
    }
  }

  lemma NoOrphans(start: int, r: RunId)
    ensures !Orphan(Empty(start), r)
  {
  }

  // ---------- Small runs ----------

  // The only row of an idle system, for address 1 at time 0.
  ghost predicate Lone(s: System, status: JobStatus, attempts: nat, max: int) {
    && s.held == map[] && s.db.now == 0 && |s.db.jobs| == 1
    && s.db.jobs[0].address == 1 && s.db.jobs[0].status == status
    && s.db.jobs[0].attemptCount == attempts && s.db.jobs[0].maxAttempts == max
  }

  lemma TakeTheOnly(s: System, attempts: nat, max: int)
    requires Lone(s, Pending, attempts, max) && s.db.jobs[0].nextAttemptAt <= 0
    ensures var after := Next(s, Take("worker", 60, {}, Some(0)));
            && after.db.now == 0 && |after.db.jobs| == 1
            && after.db.jobs[0] == Leased(s.db.jobs[0], "worker", 0, 60)
            && after.held == map["worker" := Held(0, attempts + 1, max, false, None)] && |after.db.runs| == |s.db.runs|
  {
    assert LegalPick(s.db, {}, Some(0));
    assert ClaimResult(s.db, "worker", 60, Some(0)).jobs[0] == ClaimedJob(s.db, "worker", 60, Some(0), 0);
  }

  lemma ScheduleFirst()
    ensures var s := Next(Empty(0), Env(Schedule(1, 1, 1, 2, 0)));
            Lone(s, Pending, 0, 2) && s.db.jobs[0].nextAttemptAt == 0 && s.db.runs == []
  {
    assert ActiveJob([], 1).None?;
  }

  lemma Advance(es: seq<Event>, k: nat)
    requires k < |es|
    ensures SystemAt(Empty(0), es, k + 1) == Next(SystemAt(Empty(0), es, k), es[k])
  {
  }

  lemma StartsEmpty(es: seq<Event>)
    ensures SystemAt(Empty(0), es, 0) == Empty(0)
  {
  }

  function LostReplyRun(): seq<Event> {
    [Env(Schedule(1, 1, 1, 2, 0)), Take("worker", 60, {}, Some(0)), Start("worker", 0, true, false),
     Settle("worker", Errored("no reply"), 0, true, true, false)]
  }

  lemma ReplyIsLost(s: System)
    requires s.db.now == 0 && |s.db.jobs| == 1 && s.db.runs == []
             && s.held == map["worker" := Held(0, 1, 2, false, None)]
    requires s.db.jobs[0].status == Processing && s.db.jobs[0].attemptCount == 1
    requires s.db.jobs[0].lockedBy == Some("worker") && s.db.jobs[0].leaseExpiresAt == Some(60)
    ensures OrphanedBy(Next(s, Start("worker", 0, true, false)),
            Settle("worker", Errored("no reply"), 0, true, true, false), 0)
  {
    assert Owns(s.db, "worker", 0);
    var t := Next(s, Start("worker", 0, true, false));
    assert t.held == map["worker" := Held(0, 1, 2, true, None)];
    assert t.db.jobs == [s.db.jobs[0].(lastScanRun := Some(0))];
    assert Settles(t.db, SettleOp("worker", t.held["worker"], Errored("no reply"), 0), 0);
  }

  // The reply to the insert is lost, the worker settles the job as failed, and the run is running for good.
  lemma LostReplyOrphans(es: seq<Event>)
    requires es == LostReplyRun()
    ensures Orphan(SystemAt(Empty(0), es, 4), 0)
  {
    hide Next, SystemAt, OrphanedBy, Orphan;
    assert SystemAt(Empty(0), es, 0) == Empty(0) by { StartsEmpty(es); }
    Advance(es, 0);
    ScheduleFirst();
    Advance(es, 1);
    TakeTheOnly(SystemAt(Empty(0), es, 1), 0, 2);
    Advance(es, 2);
    ReplyIsLost(SystemAt(Empty(0), es, 2));
    OrphanedExactly(0, es, 0, 4);
  }

  // ---------- What a settling decides ----------

  function BackoffSeconds(attempt: nat): nat {
    if attempt <= 1 then 30 else if attempt == 2 then 60 else if attempt == 3 then 300
    else if attempt == 4 then 900 else 3600
  }

  // A scan that did not fail leaves its job succeeded; a failed one leaves it to be retried after its back-off, or
  // dead-lettered when the attempt was its last.
  ghost predicate JobFollows(outcome: Outcome, h: Held, at: int, now: int, j: Job) {
    match outcome
    case Errored(message) =>
      && j.lastError == Some(message)
      && (if h.attempt >= h.max then j.status == DeadLetter && j.deadLetteredAt == Some(now)
          else j.status == Retryable && j.nextAttemptAt == at + BackoffSeconds(h.attempt))
    case _ => j.status == Succeeded && j.succeededAt == Some(now) && j.lastError.None?
  }

  ghost predicate RunFollows(outcome: Outcome, at: int, run: ScanRun) {
    && run.finishedAt == Some(at)
    && (outcome.Scanned? ==> run.status == Success) && (outcome.LockedElsewhere? ==> run.status == Locked)
    && (outcome.UnsupportedChain? ==> run.status == Unsupported) && (outcome.Errored? ==> run.status == Failed)
    && run.errorMessage == (if outcome.Errored? then Some(outcome.message) else None)
  }

  // A settling that commits: what becomes of the job, and of the run the worker knows when it also learns of the
  // commit.
  lemma SettlingDecides(s: System, e: Event)
    requires e.Settle? && e.committed && e.worker in s.held && HoldsLive(s.db, e.worker, s.held[e.worker].job)
    requires s.held[e.worker].run.Some? ==> s.held[e.worker].run.value < |s.db.runs|
    ensures var h := s.held[e.worker]; var after := Next(s, e).db;
            && h.job < |after.jobs| && JobFollows(e.outcome, h, e.at, s.db.now, after.jobs[h.job])
            && LetGo(s.db.jobs[h.job], after.jobs[h.job], h.run)
            && (h.run.Some? && e.replied ==>
                  h.run.value < |after.runs| && RunFollows(e.outcome, e.at, after.runs[h.run.value]))
  {
  }

  // A settling that does not commit, or comes too late, leaves the job as it is; the run the worker knows is closed as
  // failed if the audit gets through.
  lemma SettlingFails(s: System, e: Event)
    requires e.Settle? && e.worker in s.held
    requires !e.committed || !HoldsLive(s.db, e.worker, s.held[e.worker].job)
    ensures var h := s.held[e.worker]; var after := Next(s, e).db;
            && after.jobs == s.db.jobs && |after.runs| == |s.db.runs| && e.worker !in Next(s, e).held
            && (h.run.Some? && h.run.value < |s.db.runs| ==>
                  if e.audited then
                    && after.runs[h.run.value].status == Failed && after.runs[h.run.value].finishedAt == Some(e.at)
                    && after.runs[h.run.value].errorMessage == Some("scan job finalization failed")
                  else after.runs == s.db.runs)
  {
  }

  // A settled job never changes again.
  lemma {:induction false} SettledStays(s: System, es: seq<Event>, job: JobId, k1: nat, k2: nat)
    requires k1 <= k2 <= |es|
    requires job < |SystemAt(s, es, k1).db.jobs| && Terminal(SystemAt(s, es, k1).db.jobs[job])
    ensures job < |SystemAt(s, es, k2).db.jobs| && SystemAt(s, es, k2).db.jobs[job] == SystemAt(s, es, k1).db.jobs[job]
  {
    hide Next, Apply;
    if k1 < k2 {
      SettledStays(s, es, job, k1, k2 - 1);
      var op := EventIsOneStatement(SystemAt(s, es, k2 - 1), es[k2 - 1]);
      StepEvolves(SystemAt(s, es, k2 - 1).db, op);
    }
  }

  // A job whose scan did not fail has succeeded, for good.
  lemma SuccessIsFinal(s: System, es: seq<Event>, settled: nat, later: nat)
    requires settled < later <= |es| && es[settled].Settle? && es[settled].committed && !es[settled].outcome.Errored?
    requires var before := SystemAt(s, es, settled);
             && es[settled].worker in before.held
             && HoldsLive(before.db, es[settled].worker, before.held[es[settled].worker].job)
             && (before.held[es[settled].worker].run.Some? ==>
                 before.held[es[settled].worker].run.value < |before.db.runs|)
    ensures var job := SystemAt(s, es, settled).held[es[settled].worker].job;
            && job < |SystemAt(s, es, later).db.jobs| && SystemAt(s, es, later).db.jobs[job].status == Succeeded
            && SystemAt(s, es, later).db.jobs[job].succeededAt == Some(SystemAt(s, es, settled).db.now)
            && SystemAt(s, es, later).db.jobs[job].lastError.None?
  {
    hide Next, HoldsLive, LetGo, RunFollows;
    SettlingDecides(SystemAt(s, es, settled), es[settled]);
    SettledStays(s, es, SystemAt(s, es, settled).held[es[settled].worker].job, settled + 1, later);
  }

  // ---------- Failed attempts ----------

  predicate DisturbsRow(e: Event, job: JobId, address: nat) {
    (e.Take? && e.pick == Some(job)) || (e.Env? && e.op.Retry? && e.op.address == address)
  }

  lemma EventKeepsWaiting(s: System, e: Event, job: JobId)
    requires job < |s.db.jobs| && Waiting(s.db.jobs[job]) && !DisturbsRow(e, job, s.db.jobs[job].address)
    ensures job < |Next(s, e).db.jobs| && Next(s, e).db.jobs[job] == s.db.jobs[job]
  {
    hide Next, Apply, SettleResult;
    var op := EventIsOneStatement(s, e);
    StepKeepsWaiting(s.db, op, job);
  }

  lemma {:induction false} WaitsUndisturbed(s: System, es: seq<Event>, job: JobId, k1: nat, k2: nat)
    requires k1 <= k2 <= |es|
    requires job < |SystemAt(s, es, k1).db.jobs| && Waiting(SystemAt(s, es, k1).db.jobs[job])
    requires forall k :: k1 <= k < k2 ==> !DisturbsRow(es[k], job, SystemAt(s, es, k1).db.jobs[job].address)
    ensures job < |SystemAt(s, es, k2).db.jobs| && SystemAt(s, es, k2).db.jobs[job] == SystemAt(s, es, k1).db.jobs[job]
  {
    hide Next;
    if k1 < k2 {
      WaitsUndisturbed(s, es, job, k1, k2 - 1);
      EventKeepsWaiting(SystemAt(s, es, k2 - 1), es[k2 - 1], job);
    }
  }

  // A worker reports a failed scan of its job, and the report takes effect.
  ghost predicate Fails(s: System, e: Event, job: JobId) {
    && e.Settle? && e.outcome.Errored? && e.worker in s.held && s.held[e.worker].job == job
    && Commits(s.db, e, s.held[e.worker])
  }

  lemma FailurePutsBack(s: System, e: Event, job: JobId)
    requires Fails(s, e, job)
    ensures var h := s.held[e.worker]; var after := Next(s, e).db.jobs;
            && job < |after| && after[job].address == s.db.jobs[job].address
            && (if ShouldDeadLetter(h.attempt, h.max) then after[job].status == DeadLetter
                else after[job].status == Retryable && after[job].nextAttemptAt == NextAttemptAt(e.at, h.attempt))
  {
    var op := EventIsOneStatement(s, e);
    assert Apply(s.db, op).jobs == s.db.jobs[job := MarkedJob(s.db, op)];
  }

  // A job whose failed attempt was not its last is not handed out again before the back-off of that attempt is
  // over, half a minute at least and an hour at most, unless a manual retry asks for it.
  lemma FailureBacksOff(s: System, es: seq<Event>, job: JobId, failed: nat, taken: nat)
    requires failed < taken < |es| && Fails(SystemAt(s, es, failed), es[failed], job)
    requires var before := SystemAt(s, es, failed);
             !ShouldDeadLetter(before.held[es[failed].worker].attempt, before.held[es[failed].worker].max)
    requires forall k :: failed < k < taken ==> !DisturbsRow(es[k], job, SystemAt(s, es, failed).db.jobs[job].address)
    requires Takes(SystemAt(s, es, taken), es[taken]) && es[taken].pick == Some(job)
    ensures SystemAt(s, es, taken).db.now
            >= es[failed].at + BackoffSeconds(SystemAt(s, es, failed).held[es[failed].worker].attempt)
  {
    hide Next, NextAttemptAt, DisturbsRow, SettleResult;
    FailurePutsBack(SystemAt(s, es, failed), es[failed], job);
    WaitsUndisturbed(s, es, job, failed + 1, taken);
    assert Candidate(SystemAt(s, es, taken).db, es[taken].skipped, job);
    BackoffIs(es[failed].at, SystemAt(s, es, failed).held[es[failed].worker].attempt);
  }

  lemma BackoffIs(now: int, attempt: nat)
    ensures NextAttemptAt(now, attempt) == now + BackoffSeconds(attempt)
  {
  }

  // A job whose last attempt failed is dead-lettered and never changes again.
  lemma LastFailureIsFinal(s: System, es: seq<Event>, job: JobId, failed: nat, later: nat)
    requires failed < later <= |es| && Fails(SystemAt(s, es, failed), es[failed], job)
    requires var before := SystemAt(s, es, failed);
             ShouldDeadLetter(before.held[es[failed].worker].attempt, before.held[es[failed].worker].max)
    ensures job < |SystemAt(s, es, later).db.jobs| && SystemAt(s, es, later).db.jobs[job].status == DeadLetter
    ensures SystemAt(s, es, later).db.jobs[job] == SystemAt(s, es, failed + 1).db.jobs[job]
  {
    hide Next, Fails, SettleResult;
    FailurePutsBack(SystemAt(s, es, failed), es[failed], job);
    SettledStays(s, es, job, failed + 1, later);
  }
}
