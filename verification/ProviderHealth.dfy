/** The provider circuit breaker and the per-second request window. */
module ProviderHealth {
  import opened Wrappers

  type ProviderId = nat

  const FAILURE_THRESHOLD := 3
  const COOLDOWN_SECONDS := 300

  datatype Health = Health(
    failures: nat, lastSuccessAt: Option<int>, lastFailureAt: Option<int>, disabledUntil: Option<int>,
        lastError: Option<string>)

  datatype Outcome = Success(at: int) | Failure(at: int, error: string)

  function DisabledUntil(failures: int, now: int): Option<int> {
    if failures >= FAILURE_THRESHOLD then Some(now + COOLDOWN_SECONDS) else None
  }

  predicate CircuitOpen(disabledUntil: Option<int>, now: int) { disabledUntil.Some? && disabledUntil.value > now }

  // The two upserts.
  function Record(row: Option<Health>, o: Outcome): Health {
    match o
    case Success(at) =>
      if row.None? then Health(0, Some(at), None, None, None)
      else row.value.(failures := 0, lastSuccessAt := Some(at), disabledUntil := None, lastError := None)
    case Failure(at, error) =>
      if row.None? then Health(1, None, Some(at), None, Some(error))
      else
        var n := row.value.failures + 1;
        row.value.(failures := n, lastFailureAt := Some(at),
                   disabledUntil := if n >= FAILURE_THRESHOLD then Some(at + COOLDOWN_SECONDS)
                                    else row.value.disabledUntil,
                   lastError := Some(error))
  }

  // ---------- History ----------

  // The failures since the last success.
  function TrailingFailures(history: seq<Outcome>): nat {
    if history == [] || history[|history| - 1].Success? then 0
    else TrailingFailures(history[..|history| - 1]) + 1
  }

  function LastFailure(history: seq<Outcome>): Option<int> {
    if history == [] then None
    else if history[|history| - 1].Failure? then Some(history[|history| - 1].at)
    else LastFailure(history[..|history| - 1])
  }

  function LastSuccess(history: seq<Outcome>): Option<int> {
    if history == [] then None
    else if history[|history| - 1].Success? then Some(history[|history| - 1].at)
    else LastSuccess(history[..|history| - 1])
  }

  // The error of the last call, if that was a failure.
  function RunningError(history: seq<Outcome>): Option<string> {
    if history != [] && history[|history| - 1].Failure? then Some(history[|history| - 1].error) else None
  }

  // What a row must say after a history.
  ghost predicate Reflects(row: Option<Health>, history: seq<Outcome>) {
    && (row.None? <==> history == [])
    && (row.Some? ==>
          var h := row.value;
          && h.failures == TrailingFailures(history)
          && h.lastFailureAt == LastFailure(history) && h.lastSuccessAt == LastSuccess(history)
          && (h.failures >= 3 ==>
                h.lastFailureAt.Some? && h.disabledUntil == Some(h.lastFailureAt.value + 300))
          && (h.failures < 3 ==> h.disabledUntil.None?)
          && h.lastError == RunningError(history))
  }

  datatype Call = Call(provider: ProviderId, outcome: Outcome)

  function RowOf(rows: map<ProviderId, Health>, p: ProviderId): Option<Health> {
    if p in rows then Some(rows[p]) else None
  }

  // The table after a sequence of calls about any providers.
  function RowsAfter(calls: seq<Call>): map<ProviderId, Health> {
    if calls == [] then map[]
    else
      var last := calls[|calls| - 1];
      var before := RowsAfter(calls[..|calls| - 1]);
      before[last.provider := Record(RowOf(before, last.provider), last.outcome)]
  }

  // One provider's own history.
  function HistoryOf(calls: seq<Call>, p: ProviderId): seq<Outcome> {
    if calls == [] then []
    else
      var before := HistoryOf(calls[..|calls| - 1], p);
      if calls[|calls| - 1].provider == p then before + [calls[|calls| - 1].outcome] else before
  }

  lemma RecordReflects(row: Option<Health>, history: seq<Outcome>, o: Outcome)
    requires Reflects(row, history)
    ensures Reflects(Some(Record(row, o)), history + [o])
  {
    assert (history + [o])[..|history|] == history;
  }

  // After any calls every provider's row reflects exactly its own history: the trailing failure run, and a
  // cool-down of 300 seconds from the last failure exactly when that run is at least three.
  lemma {:induction false} BreakerReflectsHistory(calls: seq<Call>, p: ProviderId)
    ensures Reflects(RowOf(RowsAfter(calls), p), HistoryOf(calls, p))
  {
    if calls != [] {
      var last := calls[|calls| - 1];
      var front := calls[..|calls| - 1];
      BreakerReflectsHistory(front, p);
      if last.provider == p {
        RecordReflects(RowOf(RowsAfter(front), p), HistoryOf(front, p), last.outcome);
      }
    }
  }

  // The statement's CASE and provider_disabled_until agree on a failure exactly when the row, if the run stays
  // under the threshold, was not disabled; so they agree on every row a history leads to.
  lemma FailureMatchesPolicy(row: Option<Health>, at: int, error: string)
    ensures var after := Record(row, Failure(at, error));
            after.disabledUntil == DisabledUntil(after.failures, at)
            <==> (row.Some? && row.value.failures + 1 < FAILURE_THRESHOLD ==> row.value.disabledUntil.None?)
    ensures forall history :: Reflects(row, history) ==>
              var after := Record(row, Failure(at, error)); after.disabledUntil == DisabledUntil(after.failures, at)
  {
  }

  // ---------- Candidates ----------

  datatype Provider = Provider(id: ProviderId, chain: nat, rpc: bool, active: bool)

  // The WHERE clause of the candidate query over the left join.
  predicate Selected(p: Provider, health: Option<Health>, chain: nat, now: int) {
    && p.chain == chain && p.rpc && p.active
    && (health.None? || health.value.disabledUntil.None? || health.value.disabledUntil.value <= now)
  }

  function IsOpen(health: Option<Health>, now: int): bool {
    health.Some? && CircuitOpen(health.value.disabledUntil, now)
  }

  // An active provider of the chain is left out exactly while its circuit is open, that is
  // for 300 seconds after the latest of at least three failures in a row.
  lemma CandidatesSkipOpenCircuits(calls: seq<Call>, p: Provider, chain: nat, now: int)
    requires p.chain == chain && p.rpc && p.active
    ensures var health := RowOf(RowsAfter(calls), p.id); var history := HistoryOf(calls, p.id);
            && (Selected(p, health, chain, now) <==> !IsOpen(health, now))
            && (!Selected(p, health, chain, now) <==>
                  TrailingFailures(history) >= 3
                  && LastFailure(history).Some? && now < LastFailure(history).value + 300)
  {
    BreakerReflectsHistory(calls, p.id);
  }

  // The candidates of a chain are exactly its active RPC providers whose circuit is not open.
  lemma CandidatesExactly(calls: seq<Call>, p: Provider, chain: nat, now: int)
    ensures Selected(p, RowOf(RowsAfter(calls), p.id), chain, now)
            <==> p.chain == chain && p.rpc && p.active
                 && !(TrailingFailures(HistoryOf(calls, p.id)) >= 3
                      && LastFailure(HistoryOf(calls, p.id)).Some?
                      && now < LastFailure(HistoryOf(calls, p.id)).value + 300)
  {
    BreakerReflectsHistory(calls, p.id);
  }

  class Store {
    var rows: map<ProviderId, Health>

    constructor ()
      ensures rows == map[]
    {
      rows := map[];
    }

    method RecordSuccess(p: ProviderId, now: int)
      modifies this
      ensures rows == old(rows)[p := Record(RowOf(old(rows), p), Success(now))]
      ensures rows[p].failures == 0 && !CircuitOpen(rows[p].disabledUntil, now)
    {
      if p in rows {
        rows := rows[p := rows[p].(failures := 0, lastSuccessAt := Some(now), disabledUntil := None,
            lastError := None)];
      } else {
        rows := rows[p := Health(0, Some(now), None, None, None)];
      }
    }

    method RecordFailure(p: ProviderId, now: int, error: string)
      modifies this
      ensures rows == old(rows)[p := Record(RowOf(old(rows), p), Failure(now, error))]
      ensures rows[p].failures >= FAILURE_THRESHOLD ==> CircuitOpen(rows[p].disabledUntil, now)
    {
      if p in rows {
        var n := rows[p].failures + 1;
        var until := if n >= FAILURE_THRESHOLD then Some(now + COOLDOWN_SECONDS) else rows[p].disabledUntil;
        rows := rows[p := rows[p].(failures := n, lastFailureAt := Some(now), disabledUntil := until,
            lastError := Some(error))];
      } else {
        rows := rows[p := Health(1, None, Some(now), None, Some(error))];
      }
    }
  }

  // ---------- The per-second window ----------

  // A counter key, and the counter with the store's time (in milliseconds) at which it expires.
  datatype Key = Key(provider: ProviderId, second: int)
  datatype Counter = Counter(count: nat, expiresAt: int)

  const KEY_TTL_MS := 2000

  // `now` is the store's clock; every caller names the second by its own.
  datatype Window = Window(now: int, counters: map<Key, Counter>)

  datatype Request = Wait(elapsed: nat) | Acquire(provider: ProviderId, limit: int, callerNow: int)

  function Second(now: int): int { now / 1000 }

  function Live(w: Window, k: Key): nat {
    if k in w.counters && w.counters[k].expiresAt > w.now then w.counters[k].count else 0
  }

  predicate Permits(count: int, limit: int) { limit > 0 && count <= limit }

  predicate AsksFor(r: Request, k: Key) { r.Acquire? && r.provider == k.provider && Second(r.callerNow) == k.second }

  // INCR then EXPIRE 2; an expired key counts from nothing.
  function Step(w: Window, r: Request): Window {
    match r
    case Wait(elapsed) => w.(now := w.now + elapsed)
    case Acquire(p, _, callerNow) =>
      var k := Key(p, Second(callerNow));
      w.(counters := w.counters[k := Counter(Live(w, k) + 1, w.now + KEY_TTL_MS)])
  }

  predicate Granted(w: Window, r: Request) {
    r.Acquire? && Permits(Live(w, Key(r.provider, Second(r.callerNow))) + 1, r.limit)
  }

  function WindowAt(start: int, rs: seq<Request>, n: nat): Window
    requires n <= |rs|
  {
    if n == 0 then Window(start, map[]) else Step(WindowAt(start, rs, n - 1), rs[n - 1])
  }

  // When, by the store's clock, the key was last asked for in the first n requests.
  function LastAsked(start: int, rs: seq<Request>, n: nat, k: Key): Option<int>
    requires n <= |rs|
  {
    if n == 0 then None
    else if AsksFor(rs[n - 1], k) then Some(WindowAt(start, rs, n - 1).now)
    else LastAsked(start, rs, n - 1, k)
  }

  // A pause of two seconds since then forgets the key.
  predicate Forgotten(start: int, rs: seq<Request>, n: nat, k: Key)
    requires n <= |rs|
  {
    LastAsked(start, rs, n, k).None? || WindowAt(start, rs, n).now - LastAsked(start, rs, n, k).value >= KEY_TTL_MS
  }

  // The requests for a key among the first n, those before its last pause left out.
  function Burst(start: int, rs: seq<Request>, n: nat, k: Key): nat
    requires n <= |rs|
  {
    if n == 0 then 0
    else if !AsksFor(rs[n - 1], k) then Burst(start, rs, n - 1, k)
    else if Forgotten(start, rs, n - 1, k) then 1
    else Burst(start, rs, n - 1, k) + 1
  }

  // A live counter is the burst, and it lives until two seconds after the last request of its key.
  ghost predicate Counts(start: int, rs: seq<Request>, n: nat, k: Key)
    requires n <= |rs|
  {
    var w := WindowAt(start, rs, n); var last := LastAsked(start, rs, n, k);
    && (k in w.counters <==> last.Some?)
    && (k in w.counters ==> w.counters[k] == Counter(Burst(start, rs, n, k), last.value + KEY_TTL_MS))
    && Live(w, k) == if Forgotten(start, rs, n, k) then 0 else Burst(start, rs, n, k)
  }

  lemma {:induction false} CountersCount(start: int, rs: seq<Request>, n: nat, k: Key)
    requires n <= |rs|
    ensures Counts(start, rs, n, k)
  {
    if n > 0 {
      CountersCount(start, rs, n - 1, k);
      if rs[n - 1].Acquire? { CountersCount(start, rs, n - 1, Key(rs[n - 1].provider, Second(rs[n - 1].callerNow))); }
    }
  }

  // However callers' clocks stand, a request is granted exactly when it is within its limit in the running burst.
  lemma GrantedExactly(start: int, rs: seq<Request>, n: nat, k: Key)
    requires n < |rs| && AsksFor(rs[n], k)
    ensures Granted(WindowAt(start, rs, n), rs[n]) <==> Permits(Burst(start, rs, n + 1, k), rs[n].limit)
  {
    CountersCount(start, rs, n, k);
  }

  // How many of the first n requests asked for this provider in this second, and how many were granted.
  function Asked(rs: seq<Request>, n: nat, k: Key): nat
    requires n <= |rs|
  {
    if n == 0 then 0 else Asked(rs, n - 1, k) + (if AsksFor(rs[n - 1], k) then 1 else 0)
  }

  function Grants(start: int, rs: seq<Request>, n: nat, k: Key): nat
    requires n <= |rs|
  {
    if n == 0 then 0
    else Grants(start, rs, n - 1, k)
         + (if AsksFor(rs[n - 1], k) && Granted(WindowAt(start, rs, n - 1), rs[n - 1]) then 1 else 0)
  }

  // ---------- When the limit holds ----------

  // The key expired between two requests for it.
  predicate Paused(start: int, rs: seq<Request>, n: nat, k: Key)
    requires n <= |rs|
  {
    exists i :: 0 <= i < n && PauseAt(start, rs, i, k)
  }

  predicate PauseAt(start: int, rs: seq<Request>, i: nat, k: Key)
    requires i < |rs|
  {
    AsksFor(rs[i], k) && Asked(rs, i, k) > 0 && Forgotten(start, rs, i, k)
  }

  lemma {:induction false} NeverAsked(start: int, rs: seq<Request>, n: nat, k: Key)
    requires n <= |rs|
    ensures LastAsked(start, rs, n, k).None? <==> Asked(rs, n, k) == 0
  {
    if n > 0 { NeverAsked(start, rs, n - 1, k); }
  }

  // Without a pause the running burst is all requests; with one it is fewer.
  lemma {:induction false} BurstIsAll(start: int, rs: seq<Request>, n: nat, k: Key)
    requires n <= |rs|
    ensures Burst(start, rs, n, k) <= Asked(rs, n, k)
    ensures Burst(start, rs, n, k) == Asked(rs, n, k) <==> !Paused(start, rs, n, k)
  {
    hide Forgotten;
    if n > 0 {
      BurstIsAll(start, rs, n - 1, k);
      NeverAsked(start, rs, n - 1, k);
      PausedStep(start, rs, n - 1, k);
      if Asked(rs, n - 1, k) == 0 { FirstIsForgotten(start, rs, n - 1, k); }
    }
  }

  lemma FirstIsForgotten(start: int, rs: seq<Request>, n: nat, k: Key)
    requires n <= |rs| && LastAsked(start, rs, n, k).None?
    ensures Forgotten(start, rs, n, k)
  {
  }

  lemma PausedStep(start: int, rs: seq<Request>, n: nat, k: Key)
    requires n < |rs|
    ensures Paused(start, rs, n + 1, k) <==> Paused(start, rs, n, k) || PauseAt(start, rs, n, k)
  {
    hide PauseAt;
  }

  function Smaller(a: nat, b: nat): nat { if a <= b then a else b }

  // For one limit per key, whatever the callers' clocks: the limit is overrun if and only if more was asked than it
  // allows and the key expired between two requests. Without such a pause exactly the limit, or all requests, are
  // granted.
  lemma {:induction false} LimitMetExactly(start: int, rs: seq<Request>, n: nat, k: Key, limit: nat)
    requires n <= |rs| && limit >= 1
    requires forall i :: 0 <= i < n && AsksFor(rs[i], k) ==> rs[i].limit == limit
    ensures Grants(start, rs, n, k) <= limit <==> Asked(rs, n, k) <= limit || !Paused(start, rs, n, k)
    ensures !Paused(start, rs, n, k) ==> Grants(start, rs, n, k) == Smaller(Asked(rs, n, k), limit)
    ensures Asked(rs, n, k) <= limit ==> Grants(start, rs, n, k) == Asked(rs, n, k)
  {
    hide Granted, Forgotten, PauseAt, Paused, LastAsked, AsksFor;
    if n > 0 {
      LimitMetExactly(start, rs, n - 1, k, limit);
      PausedStep(start, rs, n - 1, k);
      BurstIsAll(start, rs, n - 1, k);
      BurstIsAll(start, rs, n, k);
      if AsksFor(rs[n - 1], k) { GrantedExactly(start, rs, n - 1, k); }
    }
  }

  // ---------- Clocks close enough ----------

  const MAX_SKEW_MS := 500

  // Whoever asks for the key has a clock within half a second of the store's.
  predicate Close(start: int, rs: seq<Request>, i: nat, k: Key)
    requires i < |rs|
  {
    AsksFor(rs[i], k) ==> -MAX_SKEW_MS <= rs[i].callerNow - WindowAt(start, rs, i).now <= MAX_SKEW_MS
  }

  // Then all requests for a key fall within two seconds of the store's clock.
  lemma {:induction false} AskedInTime(start: int, rs: seq<Request>, n: nat, k: Key)
    requires n <= |rs| && forall i :: 0 <= i < n ==> Close(start, rs, i, k)
    ensures LastAsked(start, rs, n, k).Some? ==>
              1000 * k.second - MAX_SKEW_MS <= LastAsked(start, rs, n, k).value < 1000 * k.second + 1000 + MAX_SKEW_MS
    ensures LastAsked(start, rs, n, k).None? <==> Asked(rs, n, k) == 0
  {
    if n > 0 {
      AskedInTime(start, rs, n - 1, k);
      assert Close(start, rs, n - 1, k);
    }
  }

  lemma CloseNeverPauses(start: int, rs: seq<Request>, n: nat, k: Key)
    requires n <= |rs| && forall i :: 0 <= i < n ==> Close(start, rs, i, k)
    ensures !Paused(start, rs, n, k)
  {
    hide LastAsked;
    forall i | 0 <= i < n ensures !PauseAt(start, rs, i, k) {
      AskedInTime(start, rs, i, k);
      assert Close(start, rs, i, k);
    }
  }

  // A limit that is not positive grants nothing.
  lemma {:induction false} NoLimitNoGrants(start: int, rs: seq<Request>, n: nat, k: Key)
    requires n <= |rs| && forall i :: 0 <= i < n && AsksFor(rs[i], k) ==> rs[i].limit <= 0
    ensures Grants(start, rs, n, k) == 0
  {
    if n > 0 { NoLimitNoGrants(start, rs, n - 1, k); }
  }

  // With all callers' clocks within half a second of the store's, a provider used with one limit is granted in every
  // second exactly the smaller of the requests made and that limit, however requests and other providers interleave.
  lemma WindowGrantsExactly(start: int, rs: seq<Request>, n: nat, k: Key, limit: nat)
    requires n <= |rs| && forall i :: 0 <= i < n ==> Close(start, rs, i, k)
    requires forall i :: 0 <= i < n && AsksFor(rs[i], k) ==> rs[i].limit == limit
    ensures Grants(start, rs, n, k) == Smaller(Asked(rs, n, k), limit)
  {
    hide Paused, Close, Grants, Asked;
    if limit == 0 {
      NoLimitNoGrants(start, rs, n, k);
    } else {
      CloseNeverPauses(start, rs, n, k);
      LimitMetExactly(start, rs, n, k, limit);
    }
  }

  // One millisecond more is too much: two callers, one ahead and one behind, each get the only request of a second.
  lemma WiderSkewOverruns()
    ensures var rs := [Acquire(7, 1, 1000), Wait(2000), Acquire(7, 1, 1998)];
            && rs[0].callerNow - WindowAt(499, rs, 0).now == MAX_SKEW_MS + 1
            && WindowAt(499, rs, 2).now - rs[2].callerNow == MAX_SKEW_MS + 1
            && Asked(rs, 3, Key(7, 1)) == 2 && Grants(499, rs, 3, Key(7, 1)) == 2
  {
    var rs := [Acquire(7, 1, 1000), Wait(2000), Acquire(7, 1, 1998)];
    var k := Key(7, 1);
    assert WindowAt(499, rs, 1) == Step(WindowAt(499, rs, 0), rs[0]);
    assert WindowAt(499, rs, 2) == Step(WindowAt(499, rs, 1), rs[1]);
    assert Granted(WindowAt(499, rs, 0), rs[0]) && Granted(WindowAt(499, rs, 2), rs[2]);
    assert Asked(rs, 1, k) == 1 && Asked(rs, 2, k) == 1;
    assert Grants(499, rs, 1, k) == 1 && Grants(499, rs, 2, k) == 1;
  }
}
