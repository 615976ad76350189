/** POST /api/auth/register/options: begins a passkey registration. Finds the
    user by email or creates one without a password, asks the library for
    registration options that exclude the user's existing credentials, and
    keeps the library's fresh challenge in the `reg-challenge` cookie. */
module RegisterOptionsRoute {
  import opened Values
  import opened Records
  import opened Cookies
  import opened WebAuthn
  import opened Http
  import opened Persistence

  const SELECTION := AuthenticatorSelection("preferred", "preferred", "platform")

  /** The options for `user`, whose authenticators are `auths`; `challenge` is
      the one the library generated. */
  function Options(user: User, auths: seq<Authenticator>, challenge: string, env: Env): (opts: RegistrationOptions)
    ensures opts.userID == user.id && opts.userName == user.email && opts.challenge == challenge
    ensures opts.rpName == RP_NAME && opts.attestationType == "none"
    ensures |opts.excludeCredentials| == |auths|
    ensures forall i :: 0 <= i < |auths| ==> opts.excludeCredentials[i].id == auths[i].credentialID
  {
    RegistrationOptions(challenge, RP_NAME, ExpectedRPID(env), user.id, user.email, "none", Descriptors(auths), SELECTION)
  }

  /** The handler as a function of the store and the cookie jar before the
      request; `newUserId` is the id the database would give a new user and
      `challenge` the library's fresh challenge. */
  function Handle(st: Store, jar: Jar, email: Option<string>, newUserId: string, challenge: string, env: Env): (o: Outcome)
    ensures o.store.authenticators == st.authenticators
    ensures o.store.users == st.users ||
      (Truthy(email) && !EmailTaken(st.users, email.value) && o.store.users == st.users + [User(newUserId, email.value, None)])
    ensures o.response.status != OK ==> o.store == st && o.jar == jar
    ensures Truthy(email) && (EmailTaken(st.users, email.value) || !IdTaken(st.users, newUserId)) ==>
      o.response.status == OK
    ensures o.response.status == OK ==>
      && Truthy(email)
      && o.jar == jar[REG_CHALLENGE := Cookie(challenge, CHALLENGE_MAX_AGE)]
      && o.response.body.RegistrationOptionsBody?
      && o.response.body.registration.challenge == challenge
      && FindUserByEmail(o.store.users, email.value).Some?
      && var user := FindUserByEmail(o.store.users, email.value).value;
         o.response.body.registration.userID == user.id && o.response.body.registration.userName == email.value
  {
    if !Truthy(email) then Fail(Error(BAD_REQUEST, "Email is required"), st, jar)
    else match FindUserByEmail(st.users, email.value)
      case Some(user) =>
        Outcome(Response(OK, RegistrationOptionsBody(Options(user, AuthenticatorsOf(st.authenticators, user.id), challenge, env))),
                st, jar[REG_CHALLENGE := Cookie(challenge, CHALLENGE_MAX_AGE)])
      case None =>
        var user := User(newUserId, email.value, None);
        if !CanCreateUser(st, user) then Fail(Response(SERVER_ERROR, ServerError), st, jar)
        else
          FindUserByEmailAppend(st.users, user);
          Outcome(Response(OK, RegistrationOptionsBody(Options(user, [], challenge, env))),
                  st.(users := st.users + [user]), jar[REG_CHALLENGE := Cookie(challenge, CHALLENGE_MAX_AGE)])
  }

  /** The route: get or create the user, then the options and the cookie. */
  method Post(db: Database, jar: CookieJar, email: Option<string>, newUserId: string, challenge: string, env: Env)
    returns (res: Response)
    modifies db, jar
    ensures Outcome(res, db.Snapshot(), jar.cookies) == Handle(old(db.Snapshot()), old(jar.cookies), email, newUserId, challenge, env)
  {
    if !Truthy(email) {
      return Error(BAD_REQUEST, "Email is required");
    }
    var user: User;
    var auths: seq<Authenticator>;
    var found := FindUserByEmail(db.users, email.value);
    if found.Some? {
      user := found.value;
      auths := AuthenticatorsOf(db.authenticators, user.id);
    } else {
      user := User(newUserId, email.value, None);
      var created := db.CreateUser(user);
      if !created {
        // a unique index rejects the insert; nothing catches it
        return Response(SERVER_ERROR, ServerError);
      }
      auths := [];
    }
    var options := Options(user, auths, challenge, env);
    jar.Set(REG_CHALLENGE, options.challenge, CHALLENGE_MAX_AGE);
    return Response(OK, RegistrationOptionsBody(options));
  }

  /** A missing email gives 400 and creates no user. */
  lemma MissingEmail(st: Store, jar: Jar, email: Option<string>, newUserId: string, challenge: string, env: Env)
    requires !Truthy(email)
    ensures Handle(st, jar, email, newUserId, challenge, env) == Outcome(Error(BAD_REQUEST, "Email is required"), st, jar)
  {
  }

  /** Get-or-create is stable: once a call has succeeded for an email, a
      second call for it creates nobody, whatever id the database would offer. */
  lemma GetOrCreateOnce(st: Store, jar: Jar, email: string, id1: string, id2: string,
                        c1: string, c2: string, env: Env)
    requires Handle(st, jar, Some(email), id1, c1, env).response.status == OK
    ensures var o1 := Handle(st, jar, Some(email), id1, c1, env);
      Handle(o1.store, o1.jar, Some(email), id2, c2, env).store == o1.store
  {
  }

  /** For a valid store, `excludeCredentials` lists the user's credentials in
      store order, one entry per authenticator, with its split hints. */
  lemma ExcludesUsersCredentials(st: Store, jar: Jar, email: string, newUserId: string, challenge: string, env: Env)
    requires Valid(st)
    requires Handle(st, jar, Some(email), newUserId, challenge, env).response.status == OK
    ensures var o := Handle(st, jar, Some(email), newUserId, challenge, env);
      var user := FindUserByEmail(o.store.users, email).value;
      o.response.body.registration.excludeCredentials == Descriptors(AuthenticatorsOf(st.authenticators, user.id))
  {
    if !EmailTaken(st.users, email) {
      var user := User(newUserId, email, None);
      assert CanCreateUser(st, user);
      assert forall a :: a in st.authenticators ==> a.userId != newUserId;
      AuthenticatorsOfNobody(st.authenticators, newUserId);
      FindUserByEmailAppend(st.users, user);
    }
  }

  /** Beginning a registration keeps the store valid. */
  lemma PreservesValid(st: Store, jar: Jar, email: Option<string>, newUserId: string, challenge: string, env: Env)
    requires Valid(st)
    ensures Valid(Handle(st, jar, email, newUserId, challenge, env).store)
  {
    if Truthy(email) && !EmailTaken(st.users, email.value) && CanCreateUser(st, User(newUserId, email.value, None)) {
      CreateUserPreservesValid(st, User(newUserId, email.value, None));
    }
  }
}
