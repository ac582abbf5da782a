/** The notification socket and the session together, as the application wires them: the socket is opened
    for the session's generation, its probe is an authenticated request, and a report of an invalid
    session clears the session. */
module RealtimeSession {
  import opened Wrappers
  import A = AuthSession
  import R = Realtime

  // The contexts are those of the probes' requests.
  datatype Page = Page(auth: A.Auth, conn: R.Conn, contexts: map<R.Id, A.Context>)

  // Session: anything the rest of the application, or another tab, does. Network: the socket, its timer and its probe.
  // Refused: the probe's response says 401, which the request handles before its promise is rejected.
  datatype Event =
    | Session(op: A.Op)
    | Network(event: R.Event)
    | Refused(probe: R.Id)

  function OptionsFor(generation: nat): R.Options { R.Options(true, Some(generation)) }

  // getGeneration reads the session's own counter.
  function WithAuth(p: Page, auth: A.Auth): Page {
    p.(auth := auth, conn := p.conn.(generation := auth.generation))
  }

  // What the connection's handler and its probe do to the session.
  function AfterNetwork(p: Page, conn: R.Conn): Page {
    var q := p.(conn := conn);
    if conn.unauthorizedCalls > p.conn.unauthorizedCalls then WithAuth(q, A.Cleared(p.auth))
    else if p.conn.nextId in conn.probes then
      WithAuth(q.(contexts := q.contexts[p.conn.nextId := A.ContextOf(p.auth)]), A.AfterToken(p.auth))
    else q
  }

  function Next(g: nat, p: Page, e: Event): Page {
    match e
    case Session(op) => WithAuth(p, A.Apply(p.auth, op))
    case Network(event) => if event.SessionChanges? then p else AfterNetwork(p, R.Next(OptionsFor(g), p.conn, event))
    case Refused(probe) =>
      if probe in p.conn.probes && probe in p.contexts then WithAuth(p, A.AfterUnauthorized(p.auth, p.contexts[probe]))
      else p
  }

  function Start(auth: A.Auth): Page { Page(auth, R.Initial(OptionsFor(auth.generation), auth.generation), map[]) }

  function At(auth: A.Auth, es: seq<Event>, k: nat): Page
    requires k <= |es|
  {
    if k == 0 then Start(auth) else Next(auth.generation, At(auth, es, k - 1), es[k - 1])
  }

  // ---------- Invariant ----------

  // The connection sees the session's generation, and a probe that was sent with a token was sent for
  // the generation the connection belongs to.
  ghost predicate InStep(g: nat, p: Page) {
    && p.conn.generation == p.auth.generation >= g
    && R.OneActivity(OptionsFor(g), p.conn)
    && forall probe :: probe in p.contexts && p.contexts[probe].token.Some? ==> p.contexts[probe].generation == g
  }

  lemma ChangeKeepsOne(g: nat, c: R.Conn, later: nat)
    requires R.OneActivity(OptionsFor(g), c) && g <= c.generation <= later
    ensures R.OneActivity(OptionsFor(g), c.(generation := later))
  {
    hide R.OneActivity;
    R.NextKeepsOne(OptionsFor(g), c, R.SessionChanges(later - c.generation));
  }

  lemma WithAuthKeeps(g: nat, p: Page, auth: A.Auth)
    requires InStep(g, p) && auth.generation >= p.auth.generation
    ensures InStep(g, WithAuth(p, auth))
  {
    hide R.OneActivity;
    ChangeKeepsOne(g, p.conn, auth.generation);
  }

  // Only a live socket's close starts a probe, and only while the connection is not dead.
  lemma ProbeStartsAlive(o: R.Options, c: R.Conn, e: R.Event)
    requires R.Wellformed(c) && !e.SessionChanges?
    ensures c.nextId in R.Next(o, c, e).probes ==> !R.Dead(o, c)
    ensures R.Next(o, c, e).generation == c.generation
  {
  }

  lemma NetworkKeeps(g: nat, p: Page, event: R.Event)
    requires InStep(g, p) && !event.SessionChanges?
    ensures InStep(g, AfterNetwork(p, R.Next(OptionsFor(g), p.conn, event)))
  {
    hide R.Next, R.OneActivity, R.Wellformed;
    var o := OptionsFor(g);
    var conn := R.Next(o, p.conn, event);
    R.NextKeepsOne(o, p.conn, event);
    AliveProbe(g, p, event);
    if conn.unauthorizedCalls > p.conn.unauthorizedCalls {
      WithAuthKeeps(g, p.(conn := conn), A.Cleared(p.auth));
    } else if p.conn.nextId in conn.probes {
      WithAuthKeeps(g, p.(conn := conn, contexts := p.contexts[p.conn.nextId := A.ContextOf(p.auth)]),
          A.AfterToken(p.auth));
    }
  }

  lemma AliveProbe(g: nat, p: Page, event: R.Event)
    requires InStep(g, p) && !event.SessionChanges?
    ensures R.Next(OptionsFor(g), p.conn, event).generation == p.auth.generation
    ensures p.conn.nextId in R.Next(OptionsFor(g), p.conn, event).probes ==> p.auth.generation == g
  {
    hide R.Next;
    ProbeStartsAlive(OptionsFor(g), p.conn, event);
  }

  lemma NextKeeps(g: nat, p: Page, e: Event)
    requires InStep(g, p)
    ensures InStep(g, Next(g, p, e))
    ensures Next(g, p, e).auth.generation >= p.auth.generation
  {
    hide R.Next, R.OneActivity, InStep, WithAuth;
    GenerationGrows(g, p, e);
    match e
    case Session(op) => WithAuthKeeps(g, p, A.Apply(p.auth, op));
    case Network(event) => if !event.SessionChanges? { NetworkKeeps(g, p, event); }
    case Refused(probe) =>
      if probe in p.conn.probes && probe in p.contexts {
        WithAuthKeeps(g, p, A.AfterUnauthorized(p.auth, p.contexts[probe]));
      }
  }

  lemma GenerationGrows(g: nat, p: Page, e: Event)
    ensures Next(g, p, e).auth.generation >= p.auth.generation
  {
    hide R.Next;
  }

  lemma {:induction false} InStepAlways(auth: A.Auth, es: seq<Event>, k: nat)
    requires k <= |es|
    ensures InStep(auth.generation, At(auth, es, k))
  {
    hide Next, InStep;
    if k == 0 {
      StartsInStep(auth);
    } else {
      InStepAlways(auth, es, k - 1);
      NextKeeps(auth.generation, At(auth, es, k - 1), es[k - 1]);
    }
  }

  lemma StartsInStep(auth: A.Auth)
    ensures InStep(auth.generation, Start(auth))
  {
    hide R.Initial, R.OneActivity;
    R.StartsWithOne(OptionsFor(auth.generation), auth.generation);
  }

  // ---------- Whose session a connection ends ----------

  // A connection's event took a session away.
  ghost predicate EndsSession(g: nat, p: Page, e: Event) {
    !e.Session? && p.auth.current.Some? && Next(g, p, e).auth.current.None?
  }

  lemma EndsOnlyItsOwn(g: nat, p: Page, e: Event)
    requires InStep(g, p) && EndsSession(g, p, e)
    ensures p.auth.generation == g && Next(g, p, e).auth.generation > g
  {
    hide R.Next, R.OneActivity;
    match e
    case Network(event) => R.NextIsQuiet(OptionsFor(g), p.conn, event);
    case Refused(probe) =>
  }

  lemma {:induction false} GenerationsGrow(auth: A.Auth, es: seq<Event>, k1: nat, k2: nat)
    requires k1 <= k2 <= |es|
    ensures At(auth, es, k1).auth.generation <= At(auth, es, k2).auth.generation
  {
    hide Next;
    if k1 < k2 {
      GenerationsGrow(auth, es, k1, k2 - 1);
      GenerationGrows(auth.generation, At(auth, es, k2 - 1), es[k2 - 1]);
    }
  }

  // Once a session was saved or cleared after the connection was opened, nothing the connection hears -
  // a policy close, a refused probe, a late answer - takes a session away.
  lemma NewerSessionSurvives(auth: A.Auth, es: seq<Event>, renewed: nat, heard: nat)
    requires renewed < heard < |es|
    requires es[renewed] == Session(A.Clear) || (es[renewed].Session? && es[renewed].op.Save?)
    ensures !EndsSession(auth.generation, At(auth, es, heard), es[heard])
  {
    hide Next, InStep, EndsSession;
    GenerationsGrow(auth, es, 0, renewed);
    RenewalAdvances(auth.generation, At(auth, es, renewed), es[renewed]);
    GenerationsGrow(auth, es, renewed + 1, heard);
    InStepAlways(auth, es, heard);
    if EndsSession(auth.generation, At(auth, es, heard), es[heard]) {
      EndsOnlyItsOwn(auth.generation, At(auth, es, heard), es[heard]);
    }
  }

  lemma RenewalAdvances(g: nat, p: Page, e: Event)
    requires e == Session(A.Clear) || (e.Session? && e.op.Save?)
    ensures Next(g, p, e).auth.generation > p.auth.generation
  {
  }

  lemma EndedAt(auth: A.Auth, es: seq<Event>, k: nat)
    requires k < |es| && EndsSession(auth.generation, At(auth, es, k), es[k])
    ensures At(auth, es, k).auth.generation == auth.generation < At(auth, es, k + 1).auth.generation
  {
    hide Next, InStep, EndsSession;
    InStepAlways(auth, es, k);
    EndsOnlyItsOwn(auth.generation, At(auth, es, k), es[k]);
  }

  // A connection ends at most one session, by whichever of its two routes.
  lemma EndsAtMostOnce(auth: A.Auth, es: seq<Event>, k1: nat, k2: nat)
    requires k1 < k2 < |es|
    requires EndsSession(auth.generation, At(auth, es, k1), es[k1])
    ensures !EndsSession(auth.generation, At(auth, es, k2), es[k2])
  {
    hide At, EndsSession;
    EndedAt(auth, es, k1);
    GenerationsGrow(auth, es, k1 + 1, k2);
    if EndsSession(auth.generation, At(auth, es, k2), es[k2]) { EndedAt(auth, es, k2); }
  }

  // ---------- An invalid session is ended ----------

  // A policy close of a live connection ends the session and leaves the connection stale with nothing running.
  lemma PolicyCloseEnds(g: nat, p: Page, id: R.Id)
    requires InStep(g, p) && id in p.conn.live && !R.Dead(OptionsFor(g), p.conn)
    ensures var q := Next(g, p, Network(R.Closed(id, 1008)));
            && q.auth.current.None? && q.auth.generation == g + 1 && R.Activities(q.conn) == 0
            && R.Dead(OptionsFor(g), q.conn) && q.conn.unauthorizedCalls == 1
  {
    R.TheOnlySocket(OptionsFor(g), p.conn, id);
  }

  // A close before the first open asks with the session's own token, and a 401 to that probe ends the session unless
  // it was replaced, cleared or given another token in the meantime.
  lemma ProbeAsks(g: nat, p: Page, id: R.Id, code: int)
    requires InStep(g, p) && id in p.conn.live && !R.Dead(OptionsFor(g), p.conn) && !p.conn.hasOpened && code != 1008
    ensures var q := Next(g, p, Network(R.Closed(id, code)));
            && p.conn.nextId in q.conn.probes && p.conn.nextId in q.contexts
            && q.contexts[p.conn.nextId].token == A.TokenOf(p.auth) && (p.auth.current.Some? ==> q.auth == p.auth)
  {
    R.TheOnlySocket(OptionsFor(g), p.conn, id);
  }

  lemma RefusalEnds(g: nat, p: Page, probe: R.Id)
    requires probe in p.conn.probes && probe in p.contexts && p.auth.current.Some?
    ensures Next(g, p, Refused(probe)).auth.current.None?
            <==> p.contexts[probe].generation == p.auth.generation
                 && p.contexts[probe].token == Some(p.auth.current.value.token)
  {
  }

  // Whatever ends the session, the connection it belonged to starts nothing and tells nothing afterwards.
  lemma EndedMeansDead(g: nat, p: Page, e: Event)
    requires InStep(g, p) && p.auth.generation == g && Next(g, p, e).auth.generation > g
    ensures R.Dead(OptionsFor(g), Next(g, p, e).conn)
  {
    hide R.OneActivity, R.Next;
    NextKeeps(g, p, e);
  }
}
