/** GET /api/auth/me: the current user, resolved from the `session` cookie. A
    session naming no user is cleared; the store is never written. */
module MeRoute {
  import opened Values
  import opened Records
  import opened Cookies
  import opened Http
  import opened Persistence

  /** `authenticators.map(a => ({ id, deviceType, createdAt }))`; the route
      fills `createdAt` with the credential id. */
  function Summaries(auths: seq<Authenticator>): (ss: seq<AuthenticatorSummary>)
    ensures |ss| == |auths|
    ensures forall i :: 0 <= i < |auths| ==>
      ss[i] == AuthenticatorSummary(auths[i].credentialID, auths[i].credentialDeviceType, auths[i].credentialID)
  {
    if auths == [] then []
    else [AuthenticatorSummary(auths[0].credentialID, auths[0].credentialDeviceType, auths[0].credentialID)]
         + Summaries(auths[1..])
  }

  /** The summary of `user`, whose authenticators are `auths`. */
  function Summarize(user: User, auths: seq<Authenticator>): (s: UserSummary)
    ensures s.id == user.id && s.email == user.email
    ensures s.hasPassword <==> user.password.Some? && user.password.value != ""
    ensures s.hasPasskey <==> |auths| > 0
    ensures |s.authenticators| == |auths|
  {
    UserSummary(user.id, user.email, Truthy(user.password), |auths| > 0, Summaries(auths))
  }

  /** The handler as a function of the store and the cookie jar before the request. */
  function Handle(st: Store, jar: Jar): (o: Outcome)
    ensures o.store == st
    ensures o.response.status == OK && o.response.body.CurrentUserBody?
    ensures o.jar == jar || o.jar == jar - {SESSION}
    ensures o.jar != jar ==> Truthy(Value(jar, SESSION)) && !IdTaken(st.users, Value(jar, SESSION).value)
    ensures o.response.body.summary.Some? <==> Truthy(Value(jar, SESSION)) && IdTaken(st.users, Value(jar, SESSION).value)
    ensures o.response.body.summary.Some? ==> o.response.body.summary.value.id == Value(jar, SESSION).value
    ensures Truthy(Value(jar, SESSION)) && !IdTaken(st.users, Value(jar, SESSION).value) ==> o.jar == jar - {SESSION}
    ensures o.response.body.summary.Some? ==>
      var user := FindUserById(st.users, Value(jar, SESSION).value).value;
      o.response.body.summary.value == Summarize(user, AuthenticatorsOf(st.authenticators, user.id))
  {
    var session := Value(jar, SESSION);
    if !Truthy(session) then Outcome(Response(OK, CurrentUserBody(None)), st, jar)
    else match FindUserById(st.users, session.value)
      case None => Outcome(Response(OK, CurrentUserBody(None)), st, jar - {SESSION})
      case Some(user) =>
        Outcome(Response(OK, CurrentUserBody(Some(Summarize(user, AuthenticatorsOf(st.authenticators, user.id))))), st, jar)
  }

  /** The handler as written: the lookup passes both `include` and `select` at
      the same level, a combination the database client rejects before running
      any query. The catch-all then answers 500, so any request that carries a
      session is answered 500 and keeps its cookie. */
  function HandleAsWritten(st: Store, jar: Jar): (o: Outcome)
    ensures o.store == st && o.jar == jar
    ensures o.response.status == OK <==> !Truthy(Value(jar, SESSION))
    ensures o.response.status == OK ==> o.response.body == CurrentUserBody(None)
    ensures o.response.status != OK ==> o.response == Response(SERVER_ERROR, ServerError)
  {
    if !Truthy(Value(jar, SESSION)) then Outcome(Response(OK, CurrentUserBody(None)), st, jar)
    else Outcome(Response(SERVER_ERROR, ServerError), st, jar)
  }

  /** As written, no session ever resolves: a stored user's own session gets
      500 where the intended handler answers with that user's summary, and a
      stale session is kept where the intended handler clears it. */
  lemma AsWrittenNeverResolves()
    ensures var st := Store([User("u1", "a@example.com", None)], []);
      var live := map[SESSION := Cookie("u1", SESSION_MAX_AGE)];
      && HandleAsWritten(st, live).response == Response(SERVER_ERROR, ServerError)
      && Handle(st, live).response == Response(OK, CurrentUserBody(Some(UserSummary("u1", "a@example.com", false, false, []))))
    ensures var st := Store([], []);
      var stale := map[SESSION := Cookie("u1", SESSION_MAX_AGE)];
      && HandleAsWritten(st, stale).jar == stale
      && Handle(st, stale).jar == map[]
  {
    var st := Store([User("u1", "a@example.com", None)], []);
    var live := map[SESSION := Cookie("u1", SESSION_MAX_AGE)];
    assert Value(live, SESSION) == Some("u1");
    assert st.users[0] in st.users;
    assert AuthenticatorsOf(st.authenticators, "u1") == [];
    var stale := map[SESSION := Cookie("u1", SESSION_MAX_AGE)];
    assert stale - {SESSION} == map[];
  }

  /** The route: session, lookup (clearing a stale session), summary. */
  method Get(db: Database, jar: CookieJar) returns (res: Response)
    modifies jar
    ensures Outcome(res, db.Snapshot(), jar.cookies) == Handle(db.Snapshot(), old(jar.cookies))
  {
    var session := jar.Get(SESSION);
    if !Truthy(session) {
      return Response(OK, CurrentUserBody(None));
    }
    var user := FindUserById(db.users, session.value);
    if user.None? {
      jar.Delete(SESSION);
      return Response(OK, CurrentUserBody(None));
    }
    var summary := Summarize(user.value, AuthenticatorsOf(db.authenticators, user.value.id));
    return Response(OK, CurrentUserBody(Some(summary)));
  }

  /** The summaries list a credential id exactly when some authenticator has it. */
  lemma SummariesName(auths: seq<Authenticator>, credentialID: string)
    ensures (exists e :: e in Summaries(auths) && e.id == credentialID)
        <==> (exists a :: a in auths && a.credentialID == credentialID)
  {
    var ss := Summaries(auths);
    if exists e :: e in ss && e.id == credentialID {
      var e :| e in ss && e.id == credentialID;
      var k :| 0 <= k < |ss| && ss[k] == e;
      assert auths[k] in auths;
    }
    if exists a :: a in auths && a.credentialID == credentialID {
      var a :| a in auths && a.credentialID == credentialID;
      var k :| 0 <= k < |auths| && auths[k] == a;
      assert ss[k] in ss;
    }
  }

  /** The summary says the user has a passkey exactly when some stored
      authenticator belongs to the user, and lists each of them by credential id. */
  lemma PasskeysOfUser(st: Store, user: User, credentialID: string)
    ensures var s := Summarize(user, AuthenticatorsOf(st.authenticators, user.id));
      && (s.hasPasskey <==> exists a :: a in st.authenticators && a.userId == user.id)
      && ((exists e :: e in s.authenticators && e.id == credentialID)
          <==> (exists a :: a in st.authenticators && a.userId == user.id && a.credentialID == credentialID))
  {
    var mine := AuthenticatorsOf(st.authenticators, user.id);
    if exists a :: a in st.authenticators && a.userId == user.id {
      var a :| a in st.authenticators && a.userId == user.id;
      assert a in mine;
    }
    SummariesName(mine, credentialID);
  }
}
