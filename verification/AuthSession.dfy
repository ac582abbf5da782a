/** The browser session and its generation counter. */
module AuthSession {
  import opened Wrappers

  datatype Session = Session(token: string, tenant: string)

  // What local storage holds: nothing, something that is not a login response, or a session.
  datatype Stored = Nothing | Unusable | Kept(session: Session)

  datatype Auth = Auth(current: Option<Session>, generation: nat, stored: Stored, storageWorks: bool, handlerCalls: nat)

  datatype Context = Context(token: Option<string>, generation: nat)

  function Cleared(a: Auth): Auth {
    a.(current := None, generation := a.generation + 1, stored := if a.storageWorks then Nothing else a.stored)
  }

  function Saved(a: Auth, session: Session): Auth {
    a.(current := Some(session), generation := a.generation + 1,
       stored := if a.storageWorks then Kept(session) else a.stored)
  }

  function Loaded(a: Auth): Auth {
    match if a.storageWorks then a.stored else Nothing
    case Nothing => a.(current := None)
    case Unusable => Cleared(a)
    case Kept(session) => a.(current := Some(session))
  }

  // getAuthToken, which may read storage.
  function AfterToken(a: Auth): Auth { if a.current.Some? then a else Loaded(a) }

  function TokenOf(a: Auth): Option<string> {
    var b := AfterToken(a);
    if b.current.Some? then Some(b.current.value.token) else None
  }

  function ContextOf(a: Auth): Context { Context(TokenOf(a), AfterToken(a).generation) }

  function AfterUnauthorized(a: Auth, context: Context): Auth {
    if context.generation != a.generation then a
    else if context.token != TokenOf(a) then AfterToken(a)
    else Cleared(AfterToken(a)).(handlerCalls := a.handlerCalls + 1)
  }

  datatype Op =
    | Save(session: Session)
    | Clear
    | Load
    | TakeContext
    | Unauthorized(context: Context)
    | OtherTab(stored: Stored)
    | StorageSwitch(works: bool)

  function Apply(a: Auth, op: Op): Auth {
    match op
    case Save(session) => Saved(a, session)
    case Clear => Cleared(a)
    case Load => Loaded(a)
    case TakeContext => AfterToken(a)
    case Unauthorized(context) => AfterUnauthorized(a, context)
    case OtherTab(stored) => a.(stored := stored)
    case StorageSwitch(works) => a.(storageWorks := works)
  }

  function At(a: Auth, ops: seq<Op>, k: nat): Auth
    requires k <= |ops|
  {
    if k == 0 then a else Apply(At(a, ops, k - 1), ops[k - 1])
  }

  lemma {:induction false} GenerationsGrow(a: Auth, ops: seq<Op>, k1: nat, k2: nat)
    requires k1 <= k2 <= |ops|
    ensures At(a, ops, k1).generation <= At(a, ops, k2).generation
  {
    if k1 < k2 { GenerationsGrow(a, ops, k1, k2 - 1); }
  }

  // A 401 for a request made before the session was replaced or cleared changes nothing, whatever
  // happened in between and whatever the tokens are.
  lemma StaleUnauthorizedIsIgnored(a: Auth, ops: seq<Op>, asked: nat, renewed: nat, answered: nat)
    requires asked < renewed < answered < |ops|
    requires ops[asked] == TakeContext && ops[answered] == Unauthorized(ContextOf(At(a, ops, asked)))
    requires ops[renewed].Save? || ops[renewed].Clear?
    ensures At(a, ops, answered + 1) == At(a, ops, answered)
  {
    GenerationsGrow(a, ops, asked + 1, renewed);
    GenerationsGrow(a, ops, renewed + 1, answered);
  }

  // A 401 ends the session, and tells the handler, exactly when it carries the current generation and the current
  // token; then the session is gone and the same answer a second time does nothing.
  lemma UnauthorizedEndsExactly(a: Auth, context: Context)
    ensures var after := AfterUnauthorized(a, context);
            && (after.handlerCalls > a.handlerCalls <==>
                context.generation == a.generation && context.token == TokenOf(a))
            && (after.handlerCalls > a.handlerCalls ==>
                  after.current.None? && after.generation > context.generation
                  && AfterUnauthorized(after, context) == after)
            && (after.handlerCalls == a.handlerCalls && a.current.Some? ==> after == a)
  {
  }

  // A request answered with 401 while nothing but reads happened ends the session it was made with.
  lemma FreshUnauthorizedEnds(a: Auth, session: Session)
    requires a.current == Some(session)
    ensures AfterUnauthorized(AfterToken(a), ContextOf(a)).current.None?
  {
  }

  // ---------- Reloading the page ----------

  // Memory starts afresh; storage is what it was.
  function Reloaded(a: Auth): Auth { Auth(None, 0, a.stored, a.storageWorks, 0) }

  // The session in memory is the one in storage.
  predicate InSync(a: Auth) { a.storageWorks && (a.current.Some? ==> a.stored == Kept(a.current.value)) }

  // Neither another tab nor a failing storage interferes.
  predicate Alone(op: Op) { !op.OtherTab? && !op.StorageSwitch? }

  // A page that has storage to itself has, whatever it did, the session it would have after a reload.
  lemma {:induction false} ReloadKeepsSession(a: Auth, ops: seq<Op>, k: nat)
    requires k <= |ops| && InSync(a) && forall i :: 0 <= i < |ops| ==> Alone(ops[i])
    ensures InSync(At(a, ops, k))
    ensures AfterToken(Reloaded(At(a, ops, k))).current == AfterToken(At(a, ops, k)).current
    ensures TokenOf(Reloaded(At(a, ops, k))) == TokenOf(At(a, ops, k))
  {
    if k > 0 { ReloadKeepsSession(a, ops, k - 1); }
  }

  class Module {
    var current: Option<Session>
    var generation: nat
    var stored: Stored
    var storageWorks: bool
    var handlerCalls: nat

    ghost function State(): Auth reads this { Auth(current, generation, stored, storageWorks, handlerCalls) }

    constructor (stored: Stored, storageWorks: bool)
      ensures State() == Auth(None, 0, stored, storageWorks, 0)
    {
      this.current, this.generation, this.stored := None, 0, stored;
      this.storageWorks, this.handlerCalls := storageWorks, 0;
    }

    method ClearSession()
      modifies this
      ensures State() == Apply(old(State()), Clear)
      ensures storageWorks ==> TokenOf(State()).None? && TokenOf(Reloaded(State())).None?
    {
      current := None;
      generation := generation + 1;
      if storageWorks { stored := Nothing; }
    }

    method SaveSession(session: Session)
      modifies this
      ensures State() == Apply(old(State()), Save(session))
      ensures TokenOf(State()) == Some(session.token)
              && (storageWorks ==> TokenOf(Reloaded(State())) == Some(session.token))
    {
      current := Some(session);
      generation := generation + 1;
      if storageWorks { stored := Kept(session); }
    }

    method LoadStoredSession() returns (session: Option<Session>)
      modifies this
      ensures State() == Apply(old(State()), Load) && session == current
      // a session is adopted exactly as stored and under the same generation
      ensures session.Some? <==> storageWorks && old(stored).Kept?
      ensures session.Some? ==> old(stored) == stored == Kept(session.value)
      // the generation advances exactly for an unusable entry, which is gone afterwards
      ensures generation > old(generation) <==> storageWorks && old(stored) == Unusable
      ensures session.None? && storageWorks ==> stored == Nothing
      // loading again changes nothing
      ensures Loaded(State()) == State()
    {
      if !storageWorks || stored == Nothing {
        current := None;
      } else if stored == Unusable {
        ClearSession();
      } else {
        current := Some(stored.session);
      }
      session := current;
    }

    method GetAuthToken() returns (token: Option<string>)
      modifies this
      ensures State() == Apply(old(State()), TakeContext) && token == TokenOf(old(State()))
    {
      if current.None? {
        var loaded := LoadStoredSession();
      }
      token := if current.Some? then Some(current.value.token) else None;
    }

    method GetAuthRequestContext() returns (context: Context)
      modifies this
      ensures State() == Apply(old(State()), TakeContext) && context == ContextOf(old(State()))
    {
      var token := GetAuthToken();
      context := Context(token, generation);
    }

    method HandleUnauthorized(context: Context)
      modifies this
      ensures State() == Apply(old(State()), Unauthorized(context))
      // an answer of another generation changes nothing, not even by reading storage
      ensures context.generation != old(generation) ==> State() == old(State())
      // the handler is called exactly when generation and token are current, and then the session is gone
      ensures handlerCalls == old(handlerCalls) + (if context.generation == old(generation)
                                                      && context.token == TokenOf(old(State())) then 1 else 0)
      ensures handlerCalls > old(handlerCalls) ==>
                current.None? && generation > old(generation) && (storageWorks ==> stored == Nothing)
    {
      if context.generation != generation {
        return;
      }
      var token := GetAuthToken();
      if context.token != token {
        return;
      }
      ClearSession();
      handlerCalls := handlerCalls + 1;
    }
  }
}
