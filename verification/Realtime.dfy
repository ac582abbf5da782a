/** The reconnecting notification socket: closure variables, the browser's live sockets, running auth probes
    and armed timers, and every order of their events. */
module Realtime {
  import opened Wrappers

  type Id = nat

  // Which options the connection was opened with.
  datatype Options = Options(verifiesAuth: bool, generation: Option<nat>)

  // The closure's variables (stopped .. reconnectTimer), the session generation outside it, and what the
  // browser still has running for it.
  datatype Conn = Conn(
    stopped: bool, attempt: nat, hasOpened: bool, socket: Option<Id>, reconnectTimer: Option<Id>,
    generation: nat,
    live: set<Id>, probes: set<Id>, armed: map<Id, nat>, nextId: Id,
    unauthorizedCalls: nat, notifications: nat)

  const POLICY_VIOLATION := 1008
  const MAX_DELAY_MS := 30000

  datatype Event =
    | Opened(socket: Id)
    | Message(socket: Id, isNotification: bool)
    | Closed(socket: Id, code: int)
    | ProbeResolved(probe: Id)
    | ProbeRejected(probe: Id, unauthorized: bool)
    | TimerFires(timer: Id)
    | Stop
    | SessionChanges(times: nat)

  function Pow2(n: nat): (p: nat)
    ensures p >= 1
  {
    if n == 0 then 1 else 2 * Pow2(n - 1)
  }

  function ReconnectDelayMs(attempt: nat): nat {
    if 1000 * Pow2(attempt) < MAX_DELAY_MS then 1000 * Pow2(attempt) else MAX_DELAY_MS
  }

  // The delay of the n-th reconnect in a row, in milliseconds.
  function NthDelay(n: nat): nat
    requires n >= 1
  {
    if n == 1 then 1000 else if n == 2 then 2000 else if n == 3 then 4000 else if n == 4 then 8000
    else if n == 5 then 16000 else 30000
  }

  lemma {:induction false} ManyDoublings(n: nat)
    requires n >= 5
    ensures Pow2(n) >= 32
  {
    if n > 5 {
      ManyDoublings(n - 1);
    } else {
      assert Pow2(4) == 2 * Pow2(3) && Pow2(3) == 2 * Pow2(2) && Pow2(2) == 2 * Pow2(1) && Pow2(1) == 2 * Pow2(0);
    }
  }

  lemma DelayIsNth(attempt: nat)
    ensures ReconnectDelayMs(attempt) == NthDelay(attempt + 1)
  {
    if attempt >= 5 {
      ManyDoublings(attempt);
    } else {
      assert Pow2(4) == 2 * Pow2(3) && Pow2(3) == 2 * Pow2(2) && Pow2(2) == 2 * Pow2(1) && Pow2(1) == 2 * Pow2(0);
    }
  }

  predicate Stale(o: Options, c: Conn) { o.generation.Some? && o.generation.value != c.generation }

  predicate Dead(o: Options, c: Conn) { c.stopped || Stale(o, c) }

  function Connect(o: Options, c: Conn): Conn {
    if Dead(o, c) then c
    else c.(socket := Some(c.nextId), live := c.live + {c.nextId}, nextId := c.nextId + 1)
  }

  function CleanupTimer(c: Conn): Conn {
    if c.reconnectTimer.Some? then c.(armed := c.armed - {c.reconnectTimer.value}, reconnectTimer := None) else c
  }

  function ScheduleReconnect(c: Conn): Conn {
    var d := CleanupTimer(c.(hasOpened := false, attempt := c.attempt + 1));
    d.(reconnectTimer := Some(d.nextId), armed := d.armed[d.nextId := ReconnectDelayMs(c.attempt)],
        nextId := d.nextId + 1)
  }

  function OnClose(o: Options, c: Conn, code: int): Conn {
    if Dead(o, c) then c
    else if code == POLICY_VIOLATION then c.(unauthorizedCalls := c.unauthorizedCalls + 1)
    else if !c.hasOpened && o.verifiesAuth then c.(probes := c.probes + {c.nextId}, nextId := c.nextId + 1)
    else ScheduleReconnect(c)
  }

  // An event of something that is not running any more does not happen.
  function Next(o: Options, c: Conn, e: Event): Conn {
    match e
    case Opened(s) => if s !in c.live || Dead(o, c) then c else c.(hasOpened := true, attempt := 0)
    case Message(s, isNotification) =>
      if s !in c.live || Dead(o, c) || !isNotification then c else c.(notifications := c.notifications + 1)
    case Closed(s, code) => if s !in c.live then c else OnClose(o, c.(live := c.live - {s}), code)
    case ProbeResolved(p) =>
      if p !in c.probes then c
      else
        var d := c.(probes := c.probes - {p});
        if Dead(o, d) then d else ScheduleReconnect(d)
    case ProbeRejected(p, unauthorized) =>
      if p !in c.probes then c
      else
        var d := c.(probes := c.probes - {p});
        if Dead(o, d) then d
        else if unauthorized then d.(unauthorizedCalls := d.unauthorizedCalls + 1)
        else ScheduleReconnect(d)
    case TimerFires(t) => if t !in c.armed then c else Connect(o, c.(armed := c.armed - {t}))
    case Stop => CleanupTimer(c.(stopped := true)).(socket := None)
    case SessionChanges(times) => c.(generation := c.generation + times)
  }

  function Initial(o: Options, generation: nat): Conn {
    Connect(o, Conn(false, 0, false, None, None, generation, {}, {}, map[], 0, 0, 0))
  }

  function At(o: Options, generation: nat, es: seq<Event>, k: nat): Conn
    requires k <= |es|
  {
    if k == 0 then Initial(o, generation) else Next(o, At(o, generation, es, k - 1), es[k - 1])
  }

  // ---------- One activity ----------

  function Activities(c: Conn): nat { |c.live| + |c.probes| + |c.armed| }

  ghost predicate Wellformed(c: Conn) {
    && (forall i :: i in c.live ==> i < c.nextId)
    && (forall i :: i in c.probes ==> i < c.nextId)
    && (forall i :: i in c.armed ==> i < c.nextId && c.reconnectTimer == Some(i) && 1000 <= c.armed[i] <= MAX_DELAY_MS)
    && (c.reconnectTimer.Some? ==> c.reconnectTimer.value < c.nextId)
    && (c.stopped ==> c.armed == map[])
  }

  // The connection has one thing going on, until it was stopped, outlived its session, or reported it invalid.
  ghost predicate OneActivity(o: Options, c: Conn) {
    && Wellformed(c)
    && Activities(c) <= 1
    && c.unauthorizedCalls + Activities(c) <= 1
    && (!Dead(o, c) ==> c.unauthorizedCalls + Activities(c) == 1)
  }

  // Nothing is running for the connection.
  predicate Idle(c: Conn) { c.live == {} && c.probes == {} && c.armed == map[] }

  lemma ScheduleKeepsOne(o: Options, c: Conn)
    requires Wellformed(c) && Idle(c) && c.unauthorizedCalls == 0 && !c.stopped
    ensures OneActivity(o, ScheduleReconnect(c))
  {
    hide ReconnectDelayMs;
    DelayBounds(c.attempt);
    var d := ScheduleReconnect(c);
    assert d.armed == map[d.nextId - 1 := ReconnectDelayMs(c.attempt)];
    assert |d.armed| == 1;
  }

  lemma RemovingTheOnly<T>(s: set<T>, x: T)
    requires x in s && |s| <= 1
    ensures s - {x} == {} && |s| == 1
  {
    assert |s - {x}| == 0;
  }

  lemma CloseKeepsOne(o: Options, c: Conn, s: Id, code: int)
    requires OneActivity(o, c) && s in c.live
    ensures OneActivity(o, OnClose(o, c.(live := c.live - {s}), code))
  {
    hide ScheduleReconnect;
    RemovingTheOnly(c.live, s);
    assert |c.probes| == 0 && |c.armed| == 0 && c.unauthorizedCalls == 0;
    var d := c.(live := c.live - {s});
    assert Idle(d);
    if !Dead(o, d) { ScheduleKeepsOne(o, d); }
  }

  lemma ProbeKeepsOne(o: Options, c: Conn, e: Event)
    requires OneActivity(o, c) && (e.ProbeResolved? || e.ProbeRejected?) && e.probe in c.probes
    ensures OneActivity(o, Next(o, c, e))
  {
    hide ScheduleReconnect, OnClose, Connect, CleanupTimer;
    RemovingTheOnly(c.probes, e.probe);
    assert |c.live| == 0 && |c.armed| == 0 && c.unauthorizedCalls == 0;
    var d := c.(probes := c.probes - {e.probe});
    assert Idle(d);
    if !Dead(o, d) { ScheduleKeepsOne(o, d); }
  }

  lemma TimerKeepsOne(o: Options, c: Conn, t: Id)
    requires OneActivity(o, c) && t in c.armed
    ensures OneActivity(o, Connect(o, c.(armed := c.armed - {t})))
  {
    var d := c.(armed := c.armed - {t});
    assert c.armed.Keys == {t} + d.armed.Keys && |c.armed| == |d.armed| + 1;
    assert c.live == {} && c.probes == {} && d.armed == map[];
    assert {} + {c.nextId} == {c.nextId};
  }

  lemma StopKeepsOne(o: Options, c: Conn)
    requires OneActivity(o, c)
    ensures OneActivity(o, Next(o, c, Stop))
  {
    hide ReconnectDelayMs, OnClose, ScheduleReconnect, Connect;
    var d := CleanupTimer(c.(stopped := true));
    assert d.armed == map[];
    assert |d.armed| <= |c.armed|;
  }

  lemma NextKeepsOne(o: Options, c: Conn, e: Event)
    requires OneActivity(o, c) && (o.generation.Some? ==> c.generation >= o.generation.value)
    ensures OneActivity(o, Next(o, c, e))
  {
    hide OnClose, ScheduleReconnect, Connect, CleanupTimer;
    match e
    case Closed(s, code) => if s in c.live { CloseKeepsOne(o, c, s, code); }
    case ProbeResolved(p) => if p in c.probes { ProbeKeepsOne(o, c, e); }
    case ProbeRejected(p, _) => if p in c.probes { ProbeKeepsOne(o, c, e); }
    case TimerFires(t) => if t in c.armed { TimerKeepsOne(o, c, t); }
    case Stop => StopKeepsOne(o, c);
    case _ =>
  }

  lemma DelayBounds(attempt: nat)
    ensures 1000 <= ReconnectDelayMs(attempt) <= 30000
  {
  }

  // Opened for the session generation that is current, if the caller passes one at all.
  predicate StartsFresh(o: Options, generation: nat) { o.generation.Some? ==> o.generation.value == generation }

  // In every order of events a connection has at most one of a live socket, a running probe and an armed timer;
  // exactly one as long as it is neither stopped, nor stale, nor told that it is
  // unauthorized; and it reports that at most once.
  lemma {:induction false} OneActivityAlways(o: Options, generation: nat, es: seq<Event>, k: nat)
    requires k <= |es| && StartsFresh(o, generation)
    ensures OneActivity(o, At(o, generation, es, k)) && At(o, generation, es, k).generation >= generation
  {
    hide Next, OneActivity;
    if k == 0 {
      StartsWithOne(o, generation);
    } else {
      OneActivityAlways(o, generation, es, k - 1);
      NextKeepsOne(o, At(o, generation, es, k - 1), es[k - 1]);
      NextIsQuiet(o, At(o, generation, es, k - 1), es[k - 1]);
    }
  }

  lemma StartsWithOne(o: Options, generation: nat)
    requires StartsFresh(o, generation)
    ensures OneActivity(o, Initial(o, generation)) && Initial(o, generation).generation == generation
  {
    assert {} + {0} == {0};
  }

  // ---------- Back-off ----------

  // The armed timer waits for the reconnects scheduled before it since the last open.
  ghost predicate DelayShape(c: Conn) {
    forall i :: i in c.armed ==> c.attempt >= 1 && c.armed[i] == ReconnectDelayMs(c.attempt - 1)
  }

  predicate Opens(o: Options, c: Conn, e: Event) { e.Opened? && e.socket in c.live && !Dead(o, c) }

  // The event armed a timer.
  predicate Arms(o: Options, c: Conn, e: Event) { c.nextId in Next(o, c, e).armed }

  lemma ScheduleCounts(c: Conn)
    requires c.armed == map[]
    ensures var d := ScheduleReconnect(c);
            DelayShape(d) && d.attempt == c.attempt + 1 && c.nextId in d.armed
  {
    hide ReconnectDelayMs;
  }

  lemma CloseCounts(o: Options, c: Conn, code: int)
    requires c.armed == map[]
    ensures var d := OnClose(o, c, code);
            DelayShape(d) && d.attempt == c.attempt + (if c.nextId in d.armed then 1 else 0)
  {
    hide ScheduleReconnect, ReconnectDelayMs;
    ScheduleCounts(c);
  }

  lemma NextCounts(o: Options, c: Conn, e: Event)
    requires OneActivity(o, c) && DelayShape(c)
    ensures DelayShape(Next(o, c, e))
    ensures Next(o, c, e).attempt == if Opens(o, c, e) then 0 else c.attempt + (if Arms(o, c, e) then 1 else 0)
  {
    hide ReconnectDelayMs, ScheduleReconnect, OnClose;
    if Opens(o, c, e) { RemovingTheOnly(c.live, e.socket); }
    match e
    case Closed(s, code) =>
      if s in c.live {
        RemovingTheOnly(c.live, s);
        assert |c.armed| == 0;
        CloseCounts(o, c.(live := c.live - {s}), code);
      }
    case ProbeResolved(_) => if e.probe in c.probes { ProbeCounts(o, c, e); }
    case ProbeRejected(_, _) => if e.probe in c.probes { ProbeCounts(o, c, e); }
    case _ =>
  }

  lemma ProbeCounts(o: Options, c: Conn, e: Event)
    requires OneActivity(o, c) && (e.ProbeResolved? || e.ProbeRejected?) && e.probe in c.probes
    ensures var d := Next(o, c, e);
            DelayShape(d) && d.attempt == c.attempt + (if c.nextId in d.armed then 1 else 0)
  {
    hide ReconnectDelayMs, ScheduleReconnect, OnClose;
    RemovingTheOnly(c.probes, e.probe);
    assert |c.armed| == 0;
    ScheduleCounts(c.(probes := c.probes - {e.probe}));
  }

  // The reconnects scheduled since a socket last opened.
  function Streak(o: Options, generation: nat, es: seq<Event>, k: nat): nat
    requires k <= |es|
  {
    if k == 0 then 0
    else
      var c := At(o, generation, es, k - 1);
      if Opens(o, c, es[k - 1]) then 0
      else Streak(o, generation, es, k - 1) + (if Arms(o, c, es[k - 1]) then 1 else 0)
  }

  // In every run the reconnects in a row without an open wait 1, 2, 4, 8 and 16 seconds, and from the sixth on thirty.
  lemma {:induction false} BackoffDoubles(o: Options, generation: nat, es: seq<Event>, k: nat)
    requires k <= |es| && StartsFresh(o, generation)
    ensures At(o, generation, es, k).attempt == Streak(o, generation, es, k)
    ensures forall i :: i in At(o, generation, es, k).armed ==>
              Streak(o, generation, es, k) >= 1
              && At(o, generation, es, k).armed[i] == NthDelay(Streak(o, generation, es, k))
    ensures DelayShape(At(o, generation, es, k))
  {
    hide Next, OneActivity, ReconnectDelayMs, NthDelay, Opens, Arms;
    if k > 0 {
      BackoffDoubles(o, generation, es, k - 1);
      OneActivityAlways(o, generation, es, k - 1);
      NextCounts(o, At(o, generation, es, k - 1), es[k - 1]);
    }
    if At(o, generation, es, k).attempt >= 1 { DelayIsNth(At(o, generation, es, k).attempt - 1); }
  }

  // ---------- Silence after the end ----------

  // Nothing was told to the application, and nothing new was started.
  ghost predicate Silent(c: Conn, d: Conn) {
    && d.unauthorizedCalls == c.unauthorizedCalls && d.notifications == c.notifications
    && d.live <= c.live && d.probes <= c.probes && d.armed.Keys <= c.armed.Keys
  }

  // A report of an invalid session is made only by a connection that is neither stopped nor stale, and a dead
  // connection stays dead and silent.
  lemma NextIsQuiet(o: Options, c: Conn, e: Event)
    ensures Next(o, c, e).generation >= c.generation
    ensures c.stopped ==> Next(o, c, e).stopped
    ensures Dead(o, c) ==> Silent(c, Next(o, c, e))
    ensures Next(o, c, e).unauthorizedCalls > c.unauthorizedCalls ==>
              !Dead(o, c) && Next(o, c, e).unauthorizedCalls == c.unauthorizedCalls + 1
              && (o.generation.Some? ==> c.generation == o.generation.value)
  {
  }

  lemma {:induction false} SilentOnceDead(o: Options, generation: nat, es: seq<Event>, k1: nat, k2: nat)
    requires k1 <= k2 <= |es| && StartsFresh(o, generation) && Dead(o, At(o, generation, es, k1))
    ensures Silent(At(o, generation, es, k1), At(o, generation, es, k2))
    ensures Dead(o, At(o, generation, es, k2))
  {
    hide Next, OneActivity;
    if k1 < k2 {
      SilentOnceDead(o, generation, es, k1, k2 - 1);
      StaleStays(o, generation, es, k1, k2);
      NextIsQuiet(o, At(o, generation, es, k2 - 1), es[k2 - 1]);
    }
  }

  // Generations only grow, so a connection that is stale or stopped stays so.
  lemma {:induction false} StaleStays(o: Options, generation: nat, es: seq<Event>, k1: nat, k2: nat)
    requires k1 <= k2 <= |es| && StartsFresh(o, generation) && Dead(o, At(o, generation, es, k1))
    ensures At(o, generation, es, k2).generation >= At(o, generation, es, k1).generation
    ensures At(o, generation, es, k1).stopped ==> At(o, generation, es, k2).stopped
    ensures Dead(o, At(o, generation, es, k2))
  {
    hide Next, OneActivity;
    OneActivityAlways(o, generation, es, k1);
    if k1 < k2 {
      StaleStays(o, generation, es, k1, k2 - 1);
      NextIsQuiet(o, At(o, generation, es, k2 - 1), es[k2 - 1]);
    }
  }

  lemma NothingStarts(o: Options, c: Conn, e: Event)
    requires c.live == {} && c.probes == {} && c.armed == map[]
    ensures Silent(c, Next(o, c, e))
  {
    hide OnClose, ScheduleReconnect, Connect;
  }

  // When nothing is running any more nothing can start again.
  lemma {:induction false} EndedForGood(o: Options, generation: nat, es: seq<Event>, k1: nat, k2: nat)
    requires k1 <= k2 <= |es| && Activities(At(o, generation, es, k1)) == 0
    ensures Activities(At(o, generation, es, k2)) == 0
    ensures Silent(At(o, generation, es, k1), At(o, generation, es, k2))
  {
    hide Next;
    if k1 < k2 {
      EndedForGood(o, generation, es, k1, k2 - 1);
      NothingStarts(o, At(o, generation, es, k2 - 1), es[k2 - 1]);
      assert At(o, generation, es, k2).armed.Keys == {};
    }
  }

  // ---------- The closure ----------

  lemma StoppedIsSilent(o: Options, c: Conn)
    requires c.stopped
    ensures forall e :: Silent(c, Next(o, c, e))
  {
    hide Next, Silent;
    forall e ensures Silent(c, Next(o, c, e)) { NextIsQuiet(o, c, e); }
  }

  lemma TheOnlySocket(o: Options, c: Conn, id: Id)
    requires OneActivity(o, c) && id in c.live
    ensures c.live - {id} == {} && c.probes == {} && c.armed == map[] && c.unauthorizedCalls == 0
  {
    RemovingTheOnly(c.live, id);
  }

  lemma TheOnlyProbe(o: Options, c: Conn, id: Id)
    requires OneActivity(o, c) && id in c.probes
    ensures c.probes - {id} == {} && c.live == {} && c.armed == map[] && c.unauthorizedCalls == 0
  {
    RemovingTheOnly(c.probes, id);
  }

  lemma TheOnlyTimer(o: Options, c: Conn, id: Id)
    requires OneActivity(o, c) && id in c.armed
    ensures c.armed - {id} == map[] && c.live == {} && c.probes == {} && c.unauthorizedCalls == 0
  {
    RemovingTheOnly(c.armed.Keys, id);
    assert (c.armed - {id}).Keys == {};
  }

  class Connection {
    const options: Options
    // The closure's variables.
    var stopped: bool
    var attempt: nat
    var hasOpened: bool
    var socket: Option<Id>
    var reconnectTimer: Option<Id>
    // The session's generation, and what the browser runs for the connection.
    var generation: nat
    var live: set<Id>
    var probes: set<Id>
    var armed: map<Id, nat>
    var nextId: Id
    var unauthorizedCalls: nat
    var notifications: nat

    ghost function State(): Conn reads this {
      Conn(stopped, attempt, hasOpened, socket, reconnectTimer, generation, live, probes, armed, nextId,
           unauthorizedCalls, notifications)
    }

    predicate IsStale() reads this { options.generation.Some? && options.generation.value != generation }

    // A connection opened for the current generation, or for none, has one socket.
    constructor (options: Options, generation: nat)
      ensures this.options == options && State() == Initial(options, generation)
      ensures StartsFresh(options, generation) ==>
                OneActivity(options, State()) && socket.Some? && live == {socket.value}
    {
      this.options, this.generation := options, generation;
      stopped, attempt, hasOpened, socket, reconnectTimer := false, 0, false, None, None;
      live, probes, armed, nextId, unauthorizedCalls, notifications := {}, {}, map[], 0, 0, 0;
      new;
      OpenSocket();
      assert State() == Initial(options, generation);
      if StartsFresh(options, generation) {
        StartsWithOne(options, generation);
        assert {} + {0} == {0};
      }
    }

    // Exactly one fresh socket for a connection that is neither stopped nor stale, and nothing for another.
    method OpenSocket()
      modifies this`socket, this`live, this`nextId
      ensures State() == Connect(options, old(State()))
      ensures if stopped || IsStale() then live == old(live) && socket == old(socket)
              else socket == Some(old(nextId)) && live == old(live) + {old(nextId)} && nextId > old(nextId)
    {
      if stopped || IsStale() {
        return;
      }
      socket := Some(nextId);
      live := live + {nextId};
      nextId := nextId + 1;
    }

    // A firing timer hands over to one socket: the connection keeps one activity.
    method FireTimer(timer: Id)
      requires timer in armed && OneActivity(options, State())
      modifies this`socket, this`live, this`nextId, this`armed
      ensures State() == Next(options, old(State()), TimerFires(timer))
      ensures OneActivity(options, State()) && armed == map[]
      ensures stopped || IsStale() ==> live == {}
      ensures !stopped && !IsStale() ==> |live| == 1 && live !! old(live)
    {
      TimerKeepsOne(options, State(), timer);
      TheOnlyTimer(options, State(), timer);
      armed := armed - {timer};
      OpenSocket();
      assert {} + {old(nextId)} == {old(nextId)};
    }

    // The one timer armed afterwards is new and waits for the attempts made before this one; the old one is cancelled.
    method Reschedule()
      modifies this`hasOpened, this`attempt, this`reconnectTimer, this`armed, this`nextId
      ensures State() == ScheduleReconnect(old(State()))
      ensures attempt == old(attempt) + 1 && !hasOpened
      ensures reconnectTimer.Some? && reconnectTimer.value in armed && reconnectTimer.value == old(nextId) < nextId
      ensures armed[reconnectTimer.value] == NthDelay(attempt) && 1000 <= armed[reconnectTimer.value] <= 30000
      ensures old(reconnectTimer).Some? && old(reconnectTimer).value < old(nextId) ==>
                old(reconnectTimer).value !in armed
    {
      hide ReconnectDelayMs, NthDelay;
      DelayBounds(attempt);
      DelayIsNth(attempt);
      hasOpened := false;
      var delay := ReconnectDelayMs(attempt);
      attempt := attempt + 1;
      if reconnectTimer.Some? {
        armed := armed - {reconnectTimer.value};
        reconnectTimer := None;
      }
      reconnectTimer := Some(nextId);
      armed := armed[nextId := delay];
      nextId := nextId + 1;
    }

    // After an open the next reconnect waits one second again; a dead connection forgets nothing.
    method HandleOpen(id: Id)
      requires id in live
      modifies this`hasOpened, this`attempt
      ensures State() == Next(options, old(State()), Opened(id))
      ensures !stopped && !IsStale() ==> hasOpened && attempt == 0 && ReconnectDelayMs(attempt) == 1000
      ensures stopped || IsStale() ==> State() == old(State())
    {
      if stopped || IsStale() {
        return;
      }
      hasOpened := true;
      attempt := 0;
      assert Pow2(0) == 1;
    }

    // Only a connection that is neither stopped nor stale passes a notification on.
    method HandleMessage(id: Id, isNotification: bool)
      requires id in live
      modifies this`notifications
      ensures State() == Next(options, old(State()), Message(id, isNotification))
      ensures notifications == old(notifications) + (if !stopped && !IsStale() && isNotification then 1 else 0)
    {
      if stopped || IsStale() || !isNotification {
        return;
      }
      notifications := notifications + 1;
    }

    // A close with code 1008 is reported and nothing else happens, any other close of a socket that never opened is
    // probed when that is possible, and the rest is retried; a dead connection does nothing at all. One activity is
    // kept.
    method HandleClose(id: Id, code: int)
      requires id in live && OneActivity(options, State())
      modifies this`live, this`unauthorizedCalls, this`probes, this`hasOpened, this`attempt, this`reconnectTimer,
          this`armed, this`nextId
      ensures State() == Next(options, old(State()), Closed(id, code))
      ensures OneActivity(options, State()) && live == {}
      ensures stopped || IsStale() ==>
                unauthorizedCalls == old(unauthorizedCalls) && probes == {} && armed == map[] && attempt == old(attempt)
      ensures !stopped && !IsStale() && code == 1008 ==>
                unauthorizedCalls == old(unauthorizedCalls) + 1 && probes == {} && armed == map[]
      ensures !stopped && !IsStale() && code != 1008 ==>
                && unauthorizedCalls == old(unauthorizedCalls)
                && (!old(hasOpened) && options.verifiesAuth ==> |probes| == 1 && armed == map[])
                && (old(hasOpened) || !options.verifiesAuth ==>
                    probes == {} && |armed| == 1 && attempt == old(attempt) + 1)
    {
      CloseKeepsOne(options, State(), id, code);
      TheOnlySocket(options, State(), id);
      live := live - {id};
      if stopped || IsStale() {
        return;
      }
      if code == POLICY_VIOLATION {
        unauthorizedCalls := unauthorizedCalls + 1;
        return;
      }
      if !hasOpened && options.verifiesAuth {
        probes := probes + {nextId};
        nextId := nextId + 1;
        return;
      }
      Reschedule();
    }

    // A refused probe is reported and nothing else happens, any other outcome is retried; a dead connection does
    // nothing at all. One activity is kept.
    method HandleProbe(probe: Id, failed: bool, unauthorized: bool)
      requires probe in probes && OneActivity(options, State())
      modifies this`unauthorizedCalls, this`probes, this`hasOpened, this`attempt, this`reconnectTimer, this`armed,
          this`nextId
      ensures State() == Next(options, old(State()),
              if failed then ProbeRejected(probe, unauthorized) else ProbeResolved(probe))
      ensures OneActivity(options, State()) && probes == {}
      ensures stopped || IsStale() ==>
                unauthorizedCalls == old(unauthorizedCalls) && armed == map[] && attempt == old(attempt)
      ensures !stopped && !IsStale() ==>
                if failed && unauthorized then unauthorizedCalls == old(unauthorizedCalls) + 1 && armed == map[]
                else unauthorizedCalls == old(unauthorizedCalls) && |armed| == 1 && attempt == old(attempt) + 1
    {
      ProbeKeepsOne(options, State(), if failed then ProbeRejected(probe, unauthorized) else ProbeResolved(probe));
      TheOnlyProbe(options, State(), probe);
      probes := probes - {probe};
      if stopped || IsStale() {
        return;
      }
      if failed && unauthorized {
        unauthorizedCalls := unauthorizedCalls + 1;
        return;
      }
      Reschedule();
    }

    // Whatever was going on, no timer can fire any more, and whatever still answers finds a stopped connection.
    method StopConnection()
      requires OneActivity(options, State())
      modifies this`stopped, this`reconnectTimer, this`armed, this`socket
      ensures State() == Next(options, old(State()), Stop)
      ensures OneActivity(options, State()) && stopped && armed == map[] && socket.None?
      ensures forall e :: Silent(State(), Next(options, State(), e))
    {
      hide Silent, ScheduleReconnect, OnClose, Connect, ReconnectDelayMs, NthDelay;
      StopKeepsOne(options, State());
      stopped := true;
      if reconnectTimer.Some? {
        armed := armed - {reconnectTimer.value};
        reconnectTimer := None;
      }
      socket := None;
      StoppedIsSilent(options, State());
    }
  }
}
