/** Address import tasks and their attempts: every statement as one atomic step, with the finishing of
    a task kept as the three separate statements it is. Any number of workers, users and finishers
    interleave; their arguments, clocks included, are unrestricted. */
module AddressImports {
  import opened Wrappers

  type TaskId = nat
  type AttemptId = nat
  type Worker = string
  type FinisherId = nat

  datatype TaskStatus = Waiting | Running | Completed | Failed | Cancelled
  datatype AttemptStatus = Pending | Succeeded | Errored | Skipped

  datatype Task = Task(
    status: TaskStatus, totalRows: nat, processedRows: nat, successRows: nat, failedRows: nat,
    lockedAt: Option<int>, lockedBy: Option<Worker>, startedAt: Option<int>, completedAt: Option<int>, createdAt: int)

  datatype Attempt = Attempt(
    task: TaskId, rowNumber: int, chain: nat, status: AttemptStatus,
    watchedAddress: Option<nat>, errorCode: Option<string>, errorMessage: Option<string>)

  datatype Seed = Seed(rowNumber: int, chain: nat)

  // Where a caller of `complete_import_if_finished` stands between its statements.
  datatype Finisher =
    | Refreshed(task: TaskId, snapshot: Task)
    | Checked(task: TaskId, verdict: TaskStatus)

  datatype Db = Db(tasks: seq<Task>, attempts: seq<Attempt>, finishers: map<FinisherId, Finisher>)

  const LOCK_SECONDS := 300

  predicate Done(t: Task) { t.status == Completed || t.status == Failed || t.status == Cancelled }

  // ---------- Counting ----------

  datatype Tally = Tally(total: nat, pending: nat, succeeded: nat, errored: nat, skipped: nat)

  function Add(c: Tally, s: AttemptStatus): Tally {
    match s
    case Pending => c.(total := c.total + 1, pending := c.pending + 1)
    case Succeeded => c.(total := c.total + 1, succeeded := c.succeeded + 1)
    case Errored => c.(total := c.total + 1, errored := c.errored + 1)
    case Skipped => c.(total := c.total + 1, skipped := c.skipped + 1)
  }

  // The attempts of a task by status, over the first n rows of the table.
  function Count(attempts: seq<Attempt>, task: TaskId, n: nat): (c: Tally)
    requires n <= |attempts|
    ensures c.total == c.pending + c.succeeded + c.errored + c.skipped
  {
    if n == 0 then Tally(0, 0, 0, 0, 0)
    else
      var c := Count(attempts, task, n - 1);
      if attempts[n - 1].task == task then Add(c, attempts[n - 1].status) else c
  }

  function Counts(attempts: seq<Attempt>, task: TaskId): (c: Tally) { Count(attempts, task, |attempts|) }

  predicate NonePending(attempts: seq<Attempt>, task: TaskId) {
    forall i :: 0 <= i < |attempts| && attempts[i].task == task ==> attempts[i].status != Pending
  }

  function WithCounts(t: Task, c: Tally): Task {
    t.(processedRows := c.succeeded + c.errored + c.skipped, successRows := c.succeeded, failedRows := c.errored)
  }

  // ---------- Claiming ----------

  // 0: already mine, 1: its lock is stale, 2: waiting.
  function Rank(t: Task, worker: Worker, at: int): nat {
    if t.status == Running && t.lockedBy == Some(worker) then 0
    else if t.status == Running && t.lockedAt.Some? && t.lockedAt.value < at - LOCK_SECONDS then 1
    else 2
  }

  predicate Claimable(db: Db, worker: Worker, at: int, skipped: set<TaskId>, i: TaskId) {
    && i < |db.tasks| && i !in skipped
    && (var t := db.tasks[i];
        || t.status == Waiting
        || (t.status == Running && t.lockedBy == Some(worker))
        || (t.status == Running && t.lockedAt.Some? && t.lockedAt.value < at - LOCK_SECONDS))
  }

  predicate ClaimLe(db: Db, worker: Worker, at: int, i: TaskId, j: TaskId)
    requires i < |db.tasks| && j < |db.tasks|
  {
    var a := Rank(db.tasks[i], worker, at);
    var b := Rank(db.tasks[j], worker, at);
    a < b || (a == b && db.tasks[i].createdAt <= db.tasks[j].createdAt)
  }

  predicate LegalPick(db: Db, worker: Worker, at: int, skipped: set<TaskId>, pick: Option<TaskId>) {
    match pick
    case Some(p) => Claimable(db, worker, at, skipped, p)
      && forall i :: 0 <= i < |db.tasks| && Claimable(db, worker, at, skipped, i) ==> ClaimLe(db, worker, at, p, i)
    case None => forall i :: 0 <= i < |db.tasks| ==> !Claimable(db, worker, at, skipped, i)
  }

  function LockedTask(t: Task, worker: Worker, at: int): Task {
    t.(status := Running, lockedAt := Some(at), lockedBy := Some(worker), startedAt := Some(t.startedAt.GetOr(at)))
  }

  // ---------- Marking ----------

  // The row condition of both mark statements. A skipped attempt of a cancelled task matches too.
  predicate MarkMatches(db: Db, a: AttemptId, lockTask: Option<TaskId>, lockWorker: Option<Worker>) {
    && a < |db.attempts| && db.attempts[a].task < |db.tasks|
    && (var attempt := db.attempts[a]; var t := db.tasks[attempt.task];
        && (attempt.status == Pending || (attempt.status == Skipped && t.status == Cancelled))
        && (|| (lockTask.None? && lockWorker.None?)
            || (lockTask == Some(attempt.task) && lockWorker.Some? && t.lockedBy == lockWorker && t.status == Running)
            || t.status == Cancelled))
  }

  function MarkedAttempt(t: Task, attempt: Attempt, op: Op): Attempt
    requires op.MarkSuccess? || op.MarkFailed?
  {
    if t.status == Cancelled then attempt
    else
      match op
      case MarkSuccess(_, address, _, _) =>
        attempt.(status := Succeeded, watchedAddress := Some(address), errorCode := None, errorMessage := None)
      case MarkFailed(_, code, message, _, _) =>
        attempt.(status := Errored, errorCode := Some(code), errorMessage := Some(message))
      case _ => attempt
  }

  // ---------- The statements as operations ----------

  datatype Op =
    | Create(seeds: seq<Seed>, at: int)
    | Claim(worker: Worker, at: int, skipped: set<TaskId>, pick: Option<TaskId>)
    | Renew(task: TaskId, worker: Worker, at: int)
    | MarkSuccess(attempt: AttemptId, address: nat, lockTask: Option<TaskId>, lockWorker: Option<Worker>)
    | MarkFailed(attempt: AttemptId, code: string, message: string, lockTask: Option<TaskId>,
        lockWorker: Option<Worker>)
    | Refresh(task: TaskId)
    | Cancel(task: TaskId, at: int)
    | BeginFinish(finisher: FinisherId, task: TaskId)
    | CheckPending(finisher: FinisherId)
    | Finish(finisher: FinisherId, at: int)
    | Abandon(finisher: FinisherId)

  predicate IsMark(op: Op) { op.MarkSuccess? || op.MarkFailed? }

  function NewAttempts(task: TaskId, seeds: seq<Seed>): seq<Attempt> {
    seq(|seeds|, i requires 0 <= i < |seeds| =>
      Attempt(task, seeds[i].rowNumber, seeds[i].chain, Pending, None, None, None))
  }

  function ApplyCreate(db: Db, seeds: seq<Seed>, at: int): Db {
    db.(tasks := db.tasks + [Task(Waiting, |seeds|, 0, 0, 0, None, None, None, None, at)],
        attempts := db.attempts + NewAttempts(|db.tasks|, seeds))
  }

  function ApplyClaim(db: Db, op: Op): Db
    requires op.Claim?
  {
    if op.pick.Some? && LegalPick(db, op.worker, op.at, op.skipped, op.pick)
    then db.(tasks := db.tasks[op.pick.value := LockedTask(db.tasks[op.pick.value], op.worker, op.at)])
    else db
  }

  predicate HoldsLock(db: Db, task: TaskId, worker: Worker) {
    task < |db.tasks| && db.tasks[task].lockedBy == Some(worker) && db.tasks[task].status == Running
  }

  function ApplyRenew(db: Db, task: TaskId, worker: Worker, at: int): Db {
    if HoldsLock(db, task, worker) then db.(tasks := db.tasks[task := db.tasks[task].(lockedAt := Some(at))]) else db
  }

  function ApplyMark(db: Db, op: Op): Db
    requires IsMark(op)
  {
    if MarkMatches(db, op.attempt, op.lockTask, op.lockWorker)
    then db.(attempts := db.attempts[op.attempt :=
                           MarkedAttempt(db.tasks[db.attempts[op.attempt].task], db.attempts[op.attempt], op)])
    else db
  }

  function ApplyRefresh(db: Db, task: TaskId): Db {
    if task < |db.tasks|
    then db.(tasks := db.tasks[task := WithCounts(db.tasks[task], Counts(db.attempts, task))]) else db
  }

  function SkippedAttempts(attempts: seq<Attempt>, task: TaskId): (r: seq<Attempt>)
    ensures |r| == |attempts|
  {
    seq(|attempts|, i requires 0 <= i < |attempts| =>
      if attempts[i].task == task && attempts[i].status == Pending
      then attempts[i].(status := Skipped, errorCode := Some("cancelled"),
                        errorMessage := Some("import task cancelled"))
      else attempts[i])
  }

  // Two statements in one transaction; on a task that is neither waiting nor running it is rolled back.
  function ApplyCancel(db: Db, task: TaskId, at: int): Db {
    if task < |db.tasks| && !Done(db.tasks[task]) then
      var attempts := SkippedAttempts(db.attempts, task);
      var t := WithCounts(db.tasks[task], Counts(attempts, task));
      db.(attempts := attempts,
          tasks := db.tasks[task := t.(status := Cancelled, completedAt := Some(t.completedAt.GetOr(at)),
                                       lockedAt := None, lockedBy := None)])
    else db
  }

  function Verdict(snapshot: Task): TaskStatus {
    if snapshot.successRows == 0 && snapshot.failedRows > 0 then Failed else Completed
  }

  function ApplyBegin(db: Db, f: FinisherId, task: TaskId): Db {
    if f in db.finishers || task >= |db.tasks| then db
    else
      var after := ApplyRefresh(db, task);
      if after.tasks[task].status != Running then after
      else after.(finishers := after.finishers[f := Refreshed(task, after.tasks[task])])
  }

  function ApplyCheck(db: Db, f: FinisherId): Db {
    if f in db.finishers && db.finishers[f].Refreshed? then
      var t := db.finishers[f].task;
      if NonePending(db.attempts, t)
      then db.(finishers := db.finishers[f := Checked(t, Verdict(db.finishers[f].snapshot))])
      else db.(finishers := db.finishers - {f})
    else db
  }

  function ApplyFinish(db: Db, f: FinisherId, at: int): Db {
    if f in db.finishers && db.finishers[f].Checked? && db.finishers[f].task < |db.tasks| then
      var t := db.finishers[f].task;
      var after := db.(finishers := db.finishers - {f});
      if db.tasks[t].status != Running then after
      else after.(tasks := db.tasks[t := db.tasks[t].(status := db.finishers[f].verdict, completedAt := Some(at),
                                                       lockedAt := None, lockedBy := None)])
    else db
  }

  function Apply(db: Db, op: Op): Db {
    match op
    case Create(seeds, at) => ApplyCreate(db, seeds, at)
    case Claim(_, _, _, _) => ApplyClaim(db, op)
    case Renew(task, worker, at) => ApplyRenew(db, task, worker, at)
    case Refresh(task) => ApplyRefresh(db, task)
    case Cancel(task, at) => ApplyCancel(db, task, at)
    case BeginFinish(f, task) => ApplyBegin(db, f, task)
    case CheckPending(f) => ApplyCheck(db, f)
    case Finish(f, at) => ApplyFinish(db, f, at)
    case Abandon(f) => db.(finishers := db.finishers - {f})
    case _ => ApplyMark(db, op)
  }

  function At(db: Db, ops: seq<Op>, k: nat): Db
    requires k <= |ops|
  {
    if k == 0 then db else Apply(At(db, ops, k - 1), ops[k - 1])
  }

  function Empty(): Db { Db([], [], map[]) }
}
