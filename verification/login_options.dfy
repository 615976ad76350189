/** POST /api/auth/login/options: begins a passkey sign-in. With an email it
    lists that user's credentials as the allow-list; without one it leaves the
    choice to the browser (autofill). Keeps the library's fresh challenge in
    the `auth-challenge` cookie; never writes the store. */
module LoginOptionsRoute {
  import opened Values
  import opened Records
  import opened Cookies
  import opened WebAuthn
  import opened Http
  import opened Persistence

  /** The client's prompt style: a full prompt when an email was given,
      passive autofill otherwise. */
  function Mediation(email: Option<string>): (m: string)
    ensures m == "optional" <==> Truthy(email)
    ensures m == "optional" || m == "conditional"
  {
    if Truthy(email) then "optional" else "conditional"
  }

  /** `user?.authenticators.map(...)`: no list without an email or for an unknown one. */
  function AllowCredentials(st: Store, email: Option<string>): (allow: Option<seq<CredentialDescriptor>>)
    ensures allow.Some? <==> Truthy(email) && EmailTaken(st.users, email.value)
  {
    var user := if Truthy(email) then FindUserByEmail(st.users, email.value) else None;
    if user.Some? then Some(Descriptors(AuthenticatorsOf(st.authenticators, user.value.id))) else None
  }

  /** The handler as a function of the store and the cookie jar before the
      request; `challenge` is the library's fresh challenge. */
  function Handle(st: Store, jar: Jar, email: Option<string>, challenge: string, env: Env): (o: Outcome)
    ensures o.store == st
    ensures o.jar == jar[AUTH_CHALLENGE := Cookie(challenge, CHALLENGE_MAX_AGE)]
    ensures o.response.status == OK && o.response.body.AuthenticationOptionsBody?
    ensures o.response.body.authentication.challenge == challenge
    ensures o.response.body.authentication.allowCredentials.None? <==> !Truthy(email) || !EmailTaken(st.users, email.value)
    ensures o.response.body.mediation == Mediation(email)
  {
    var options := AuthenticationOptions(challenge, ExpectedRPID(env), AllowCredentials(st, email), "preferred");
    Outcome(Response(OK, AuthenticationOptionsBody(options, Mediation(email))),
            st, jar[AUTH_CHALLENGE := Cookie(challenge, CHALLENGE_MAX_AGE)])
  }

  /** The route: optional lookup, options, cookie. */
  method Post(db: Database, jar: CookieJar, email: Option<string>, challenge: string, env: Env)
    returns (res: Response)
    modifies jar
    ensures Outcome(res, db.Snapshot(), jar.cookies) == Handle(db.Snapshot(), old(jar.cookies), email, challenge, env)
  {
    var user: Option<User> := None;
    if Truthy(email) {
      user := FindUserByEmail(db.users, email.value);
    }
    var allow := if user.Some? then Some(Descriptors(AuthenticatorsOf(db.authenticators, user.value.id))) else None;
    var options := AuthenticationOptions(challenge, ExpectedRPID(env), allow, "preferred");
    jar.Set(AUTH_CHALLENGE, options.challenge, CHALLENGE_MAX_AGE);
    return Response(OK, AuthenticationOptionsBody(options, Mediation(email)));
  }

  /** For a known email (emails being unique), the allow-list describes that
      user's authenticators in store order, and so names exactly their credential ids. */
  lemma AllowListIsUsersCredentials(st: Store, jar: Jar, user: User, challenge: string, env: Env, credentialID: string)
    requires UniqueEmails(st.users) && user in st.users && user.email != ""
    ensures var allow := Handle(st, jar, Some(user.email), challenge, env).response.body.authentication.allowCredentials;
      && allow == Some(Descriptors(AuthenticatorsOf(st.authenticators, user.id)))
      && ((exists d :: d in allow.value && d.id == credentialID)
          <==> (exists a :: a in st.authenticators && a.userId == user.id && a.credentialID == credentialID))
  {
    FindUserByEmailUnique(st.users, user);
    DescriptorsOfUser(st.authenticators, user.id, credentialID);
  }
}
