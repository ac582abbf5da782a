/** One scheduler pass: a bounded loop of transactions, each of which takes the most overdue idle
    address, inserts its job and advances its next scan time. Other clients' statements on the queue
    run between the transactions and between the statements of one transaction, and other sessions
    may rewrite any address row between the transactions; the selected row itself is locked. */
module Scheduler {
  import opened Wrappers
  import opened ScanJobs
  import opened ScanJobRuns
  import Effects = ScanJobEffects

  type AddressId = nat

  datatype Address = Address(tenant: nat, chain: nat, active: bool, nextScanAt: int, interval: int, createdAt: int)

  // What the rest of the world does around one transaction: statements and writes to the address table
  // before it, address rows it has locked, statements between the selection and the insert.
  datatype Turn = Turn(before: seq<Op>, written: Option<seq<Address>>, skipped: set<AddressId>, during: seq<Op>)

  // One committed transaction, with the address table as it found and as it left it.
  datatype Commit = Commit(address: AddressId, inserted: bool, db: Db, found: seq<Address>, addresses: seq<Address>)

  predicate ActiveFor(j: Job, address: AddressId) { Active(j) && j.address == address }

  predicate Idle(db: Db, address: AddressId) {
    forall i :: 0 <= i < |db.jobs| ==> !ActiveFor(db.jobs[i], address)
  }

  predicate Selectable(db: Db, addresses: seq<Address>, skipped: set<AddressId>, now: int, a: AddressId) {
    a < |addresses| && a !in skipped && addresses[a].active && addresses[a].nextScanAt <= now && Idle(db, a)
  }

  predicate MoreOverdue(a: Address, b: Address) {
    a.nextScanAt < b.nextScanAt || (a.nextScanAt == b.nextScanAt && a.createdAt <= b.createdAt)
  }

  // The most overdue selectable address among the first n.
  function MostOverdue(db: Db, addresses: seq<Address>, skipped: set<AddressId>, now: int, n: nat)
    : (r: Option<AddressId>)
    requires n <= |addresses|
    ensures r.Some? ==> r.value < n && Selectable(db, addresses, skipped, now, r.value)
                        && forall a :: 0 <= a < n && Selectable(db, addresses, skipped, now, a)
                                       ==> addresses[r.value].nextScanAt <= addresses[a].nextScanAt
                                           && (addresses[r.value].nextScanAt == addresses[a].nextScanAt ==>
                                                 addresses[r.value].createdAt <= addresses[a].createdAt)
    ensures r.None? ==> forall a :: 0 <= a < n ==> !Selectable(db, addresses, skipped, now, a)
  {
    if n == 0 then None
    else
      var best := MostOverdue(db, addresses, skipped, now, n - 1);
      if Selectable(db, addresses, skipped, now, n - 1)
         && (best.None? || !MoreOverdue(addresses[best.value], addresses[n - 1])) then Some(n - 1) else best
  }

  // Selected may be any unlocked, active, overdue address without a pending, retryable or processing job.
  lemma SelectableExactly(db: Db, addresses: seq<Address>, skipped: set<AddressId>, now: int, a: AddressId)
    ensures Selectable(db, addresses, skipped, now, a)
            <==> a < |addresses| && a !in skipped && addresses[a].active && addresses[a].nextScanAt <= now
                 && !exists i :: 0 <= i < |db.jobs| && Effects.IsActiveFor(db.jobs[i], a)
  {
    forall i | 0 <= i < |db.jobs| ensures ActiveFor(db.jobs[i], a) <==> Effects.IsActiveFor(db.jobs[i], a) {}
  }

  // One transaction for the selected address.
  function Enqueue(db: Db, addresses: seq<Address>, a: AddressId, during: seq<Op>, maxAttempts: int, now: int): Commit
    requires a < |addresses|
  {
    var row := addresses[a];
    var seen := At(db, during, |during|);
    var after := Apply(seen, Schedule(row.tenant, a, row.chain, maxAttempts, now));
    Commit(a, |after.jobs| > |seen.jobs|, after, addresses, addresses[a := row.(nextScanAt := now + row.interval)])
  }

  function FoundBy(addresses: seq<Address>, turn: Turn): seq<Address> { turn.written.GetOr(addresses) }

  function Selected(db: Db, found: seq<Address>, turn: Turn, now: int): Option<AddressId> {
    MostOverdue(At(db, turn.before, |turn.before|), found, turn.skipped, now, |found|)
  }

  // The commits of a pass of at most |turns| transactions.
  function Pass(db: Db, addresses: seq<Address>, turns: seq<Turn>, maxAttempts: int, now: int): (commits: seq<Commit>)
    ensures |commits| <= |turns|
    decreases |turns|
  {
    if turns == [] then []
    else
      var found := FoundBy(addresses, turns[0]);
      match Selected(db, found, turns[0], now)
      case None => []
      case Some(a) =>
        var c := Enqueue(At(db, turns[0].before, |turns[0].before|), found, a, turns[0].during, maxAttempts, now);
        [c] + Pass(c.db, c.addresses, turns[1..], maxAttempts, now)
  }

  function Inserted(commits: seq<Commit>): (n: nat)
    ensures n <= |commits|
  {
    if commits == [] then 0 else (if commits[0].inserted then 1 else 0) + Inserted(commits[1..])
  }

  // Exactly one active job of the address.
  ghost predicate HasOneActiveJob(db: Db, address: AddressId) {
    exists i :: 0 <= i < |db.jobs| && ActiveFor(db.jobs[i], address)
                && forall j :: 0 <= j < |db.jobs| && ActiveFor(db.jobs[j], address) ==> i == j
  }

  lemma {:induction false} TrafficKeepsShape(db: Db, ops: seq<Op>, k: nat)
    requires QueueShape(db) && k <= |ops|
    ensures QueueShape(At(db, ops, k))
  {
    if k > 0 {
      TrafficKeepsShape(db, ops, k - 1);
      StepKeepsShape(At(db, ops, k - 1), ops[k - 1]);
    }
  }

  lemma ScheduledHasOneJob(db: Db, op: Op)
    requires QueueShape(db) && op.Schedule?
    ensures HasOneActiveJob(Apply(db, op), op.address)
  {
    var after := Apply(db, op);
    StepKeepsShape(db, op);
    var i := match ActiveJob(db.jobs, op.address) case Some(i) => i case None => |db.jobs|;
    assert ActiveFor(after.jobs[i], op.address);
  }

  lemma EnqueueLosesNothing(db: Db, addresses: seq<Address>, a: AddressId, during: seq<Op>, maxAttempts: int, now: int)
    requires QueueShape(db) && a < |addresses|
    ensures var c := Enqueue(db, addresses, a, during, maxAttempts, now);
            QueueShape(c.db) && HasOneActiveJob(c.db, a)
  {
    TrafficKeepsShape(db, during, |during|);
    var seen := At(db, during, |during|);
    var op := Schedule(addresses[a].tenant, a, addresses[a].chain, maxAttempts, now);
    StepKeepsShape(seen, op);
    ScheduledHasOneJob(seen, op);
  }

  // A newly inserted job is the address's only active one, due at once and with its whole budget.
  lemma InsertedJobIsDue(db: Db, addresses: seq<Address>, a: AddressId, during: seq<Op>, maxAttempts: int, now: int)
    requires a < |addresses| && Enqueue(db, addresses, a, during, maxAttempts, now).inserted
    ensures var jobs := Enqueue(db, addresses, a, during, maxAttempts, now).db.jobs;
            && jobs != []
            && (var j := jobs[|jobs| - 1];
                && ActiveFor(j, a) && j.tenant == addresses[a].tenant && j.chain == addresses[a].chain
                && j.attemptCount == 0 && j.maxAttempts == maxAttempts
                && (forall t :: Due(j, t) <==> now <= t)
                && forall i :: 0 <= i < |jobs| - 1 ==> !ActiveFor(jobs[i], a))
  {
    var seen := At(db, during, |during|);
    assert ActiveJob(seen.jobs, a).None?;
  }

  ghost predicate CommitIsSound(c: Commit, now: int) {
    && QueueShape(c.db) && HasOneActiveJob(c.db, c.address)
    && c.address < |c.found| && c.found[c.address].active && c.found[c.address].nextScanAt <= now
    && c.addresses == c.found[c.address := c.found[c.address].(nextScanAt := now + c.found[c.address].interval)]
  }

  // The address table a transaction starts from: what the one before it left, or what others made of it.
  predicate StartsFrom(addresses: seq<Address>, commits: seq<Commit>, turns: seq<Turn>, i: nat)
    requires i < |commits| && i < |turns|
  {
    commits[i].found == FoundBy(if i == 0 then addresses else commits[i - 1].addresses, turns[i])
  }

  // Whatever else happens on the queue and the address table, at each commit of a pass the one address whose next
  // scan time was advanced was active and overdue and now has exactly one active job.
  lemma {:induction false} PassLosesNoAddress(db: Db, addresses: seq<Address>, turns: seq<Turn>, maxAttempts: int,
      now: int, i: nat)
    requires QueueShape(db)
    requires i < |Pass(db, addresses, turns, maxAttempts, now)|
    ensures var commits := Pass(db, addresses, turns, maxAttempts, now);
            CommitIsSound(commits[i], now) && StartsFrom(addresses, commits, turns, i)
    decreases |turns|
  {
    hide At, Enqueue, QueueShape, CommitIsSound;
    var db0 := At(db, turns[0].before, |turns[0].before|);
    var found := FoundBy(addresses, turns[0]);
    var a := Selected(db, found, turns[0], now).value;
    var c := Enqueue(db0, found, a, turns[0].during, maxAttempts, now);
    TrafficKeepsShape(db, turns[0].before, |turns[0].before|);
    FirstIsSound(db0, found, turns[0], a, maxAttempts, now);
    var commits := Pass(db, addresses, turns, maxAttempts, now);
    var rest := Pass(c.db, c.addresses, turns[1..], maxAttempts, now);
    assert commits == [c] + rest;
    if i > 0 {
      PassLosesNoAddress(c.db, c.addresses, turns[1..], maxAttempts, now, i - 1);
      assert commits[i] == rest[i - 1];
    }
  }

  lemma FirstIsSound(db: Db, found: seq<Address>, turn: Turn, a: AddressId, maxAttempts: int, now: int)
    requires QueueShape(db) && Selectable(db, found, turn.skipped, now, a)
    ensures var c := Enqueue(db, found, a, turn.during, maxAttempts, now);
            CommitIsSound(c, now) && QueueShape(c.db) && c.found == found
  {
    hide QueueShape;
    EnqueueLosesNothing(db, found, a, turn.during, maxAttempts, now);
  }

  // When nobody else touches the queue between a transaction's statements, every commit inserts its job.
  lemma UndisturbedAlwaysInserts(db: Db, addresses: seq<Address>, turn: Turn, maxAttempts: int, now: int)
    requires turn.during == [] && Selected(db, addresses, turn, now).Some?
    ensures Enqueue(At(db, turn.before, |turn.before|), addresses, Selected(db, addresses, turn, now).value,
                    turn.during, maxAttempts, now).inserted
  {
    var found := At(db, turn.before, |turn.before|);
    var a := Selected(db, addresses, turn, now).value;
    assert Idle(found, a);
    match ActiveJob(found.jobs, a)
    case Some(i) => assert ActiveFor(found.jobs[i], a);
    case None =>
  }

  lemma PassStep(db: Db, addresses: seq<Address>, turns: seq<Turn>, i: nat, maxAttempts: int, now: int,
                 all: seq<Commit>, done: seq<Commit>)
    requires i < |turns| && all == done + Pass(db, addresses, turns[i..], maxAttempts, now)
    ensures var found := FoundBy(addresses, turns[i]);
            match Selected(db, found, turns[i], now)
            case None => all == done
            case Some(a) =>
              var c := Enqueue(At(db, turns[i].before, |turns[i].before|), found, a, turns[i].during, maxAttempts, now);
              all == done + [c] + Pass(c.db, c.addresses, turns[i + 1..], maxAttempts, now)
  {
    assert turns[i..][1..] == turns[i + 1..];
  }

  class Tables {
    var db: Db
    var addresses: seq<Address>

    // The loop of transactions. It returns the number of newly inserted jobs, at most one per
    // iteration, and stops early exactly when it finds no address to scan.
    method EnqueueDueAddresses(batchSize: int, maxAttempts: int, now: int, turns: seq<Turn>) returns (enqueued: nat)
      requires |turns| == if batchSize > 0 then batchSize else 0
      modifies this
      ensures var commits := Pass(old(db), old(addresses), turns, maxAttempts, now);
              && enqueued == Inserted(commits) <= |turns|
              && (|commits| == |turns| > 0 ==>
                    db == commits[|commits| - 1].db && addresses == commits[|commits| - 1].addresses)
              && (|commits| < |turns| ==>
                    forall a :: 0 <= a < |addresses| ==>
                      !Selectable(db, addresses, turns[|commits|].skipped, now, a))
    {
      hide At, Pass, Enqueue, Selectable;
      enqueued := 0;
      var i := 0;
      ghost var done: seq<Commit> := [];
      ghost var all := Pass(db, addresses, turns, maxAttempts, now);
      assert turns[0..] == turns;
      while i < batchSize
        invariant 0 <= i <= |turns| && |done| == i
        invariant all == done + Pass(db, addresses, turns[i..], maxAttempts, now)
        invariant enqueued == Inserted(done)
        invariant i > 0 ==> db == done[i - 1].db && addresses == done[i - 1].addresses
      {
        ghost var was, left := db, addresses;
        addresses := FoundBy(addresses, turns[i]);
        db := At(db, turns[i].before, |turns[i].before|);
        var candidate := MostOverdue(db, addresses, turns[i].skipped, now, |addresses|);
        PassStep(was, left, turns, i, maxAttempts, now, all, done);
        if candidate.None? {
          return;
        }
        var c := Enqueue(db, addresses, candidate.value, turns[i].during, maxAttempts, now);
        db, addresses := c.db, c.addresses;
        if c.inserted { enqueued := enqueued + 1; }
        InsertedAppend(done, c);
        done := done + [c];
        i := i + 1;
      }
      assert all == done;
    }
  }

  lemma {:induction false} InsertedAppend(commits: seq<Commit>, c: Commit)
    ensures Inserted(commits + [c]) == Inserted(commits) + (if c.inserted then 1 else 0)
  {
    if commits != [] {
      InsertedAppend(commits[1..], c);
      assert (commits + [c])[1..] == commits[1..] + [c];
    }
  }
}
