/** Properties of sequences of requests: what one route leaves in the store and
    the cookie jar and what the next route then does with it. */
module Ceremonies {
  import opened Values
  import opened Records
  import opened Cookies
  import opened WebAuthn
  import opened Http
  import RegisterOptionsRoute
  import RegisterVerifyRoute
  import LoginOptionsRoute
  import LoginVerifyRoute
  import DeleteAuthenticatorRoute
  import RegisterPasswordRoute
  import LoginPasswordRoute
  import MeRoute
  import LogoutRoute

  /** A registration challenge is consumed by a successful registration: any
      second attempt, whatever it sends, finds no challenge. */
  lemma RegistrationChallengeSingleUse(
    st: Store, jar: Jar, email: Option<string>, r: Option<AttestationResponse>, env: Env,
    verify: AttestationCheck -> AttestationVerdict,
    email2: string, r2: AttestationResponse, env2: Env, verify2: AttestationCheck -> AttestationVerdict)
    requires RegisterVerifyRoute.Handle(st, jar, email, r, env, verify).response.status == OK
    requires email2 != ""
    ensures var o := RegisterVerifyRoute.Handle(st, jar, email, r, env, verify);
      RegisterVerifyRoute.Handle(o.store, o.jar, Some(email2), Some(r2), env2, verify2)
        == Outcome(Error(BAD_REQUEST, "Challenge not found"), o.store, o.jar)
  {
  }

  /** An authentication challenge is consumed by a successful sign-in: replaying
      any assertion afterwards finds no challenge. */
  lemma AuthenticationChallengeSingleUse(
    st: Store, jar: Jar, r: Option<AssertionResponse>, env: Env, verify: AssertionCheck -> AssertionVerdict,
    r2: AssertionResponse, env2: Env, verify2: AssertionCheck -> AssertionVerdict)
    requires LoginVerifyRoute.Handle(st, jar, r, env, verify).response.status == OK
    ensures var o := LoginVerifyRoute.Handle(st, jar, r, env, verify);
      LoginVerifyRoute.Handle(o.store, o.jar, Some(r2), env2, verify2)
        == Outcome(Error(BAD_REQUEST, "Challenge not found"), o.store, o.jar)
  {
  }

  /** Beginning a registration does not open a sign-in: with no authentication
      challenge before it, a sign-in attempt after it still finds none. */
  lemma RegistrationChallengeDoesNotSignIn(
    st: Store, jar: Jar, email: Option<string>, newUserId: string, challenge: string, env: Env,
    r: AssertionResponse, verify: AssertionCheck -> AssertionVerdict)
    requires AUTH_CHALLENGE !in jar
    ensures var o := RegisterOptionsRoute.Handle(st, jar, email, newUserId, challenge, env);
      LoginVerifyRoute.Handle(o.store, o.jar, Some(r), env, verify).response == Error(BAD_REQUEST, "Challenge not found")
  {
  }

  /** After sign-in options, the library is asked to check the assertion against
      exactly the challenge those options carried, and the sign-in succeeds
      exactly when the library verifies it. */
  lemma SignInChecksIssuedChallenge(
    st: Store, jar: Jar, email: Option<string>, challenge: string, env: Env,
    r: AssertionResponse, verify: AssertionCheck -> AssertionVerdict, a: Authenticator)
    requires challenge != ""
    requires r.id.Some? && FindAuthenticator(st.authenticators, r.id.value) == Some(a)
    ensures var o1 := LoginOptionsRoute.Handle(st, jar, email, challenge, env);
      && o1.response.body.authentication.challenge == challenge
      && (LoginVerifyRoute.Handle(o1.store, o1.jar, Some(r), env, verify).response.status == OK
          <==> verify(LoginVerifyRoute.Check(r, challenge, env, a)).AssertionVerified?)
  {
  }

  /** After registration options, the library is asked to check the attestation
      against exactly the challenge those options carried, and a new credential
      is saved exactly when the library verifies it with registration info. */
  lemma RegistrationChecksIssuedChallenge(
    st: Store, jar: Jar, email: string, newUserId: string, challenge: string, env: Env,
    r: AttestationResponse, verify: AttestationCheck -> AttestationVerdict)
    requires challenge != ""
    requires RegisterOptionsRoute.Handle(st, jar, Some(email), newUserId, challenge, env).response.status == OK
    ensures var o1 := RegisterOptionsRoute.Handle(st, jar, Some(email), newUserId, challenge, env);
      var v := verify(RegisterVerifyRoute.Check(r, challenge, env));
      var o2 := RegisterVerifyRoute.Handle(o1.store, o1.jar, Some(email), Some(r), env, verify);
      && o1.response.body.registration.challenge == challenge
      && (o2.response.status == OK <==>
            v.AttestationReturned? && v.verified && v.registrationInfo.Some?
            && !CredentialTaken(o1.store.authenticators, v.registrationInfo.value.credentialID))
  {
    var o1 := RegisterOptionsRoute.Handle(st, jar, Some(email), newUserId, challenge, env);
    var user := FindUserByEmail(o1.store.users, email).value;
    assert IdTaken(o1.store.users, user.id);
  }

  /** Signing up with a password and then signing in with the same email and
      password (which the hash comparison accepts) gives a session for the new user. */
  lemma PasswordSignUpThenSignIn(
    st: Store, jar: Jar, email: string, password: string, newUserId: string,
    hash: string -> string, verifyPassword: (string, string) -> bool, jar2: Jar)
    requires RegisterPasswordRoute.Handle(st, jar, Some(email), Some(password), newUserId, hash).response.status == OK
    requires verifyPassword(password, hash(password)) && hash(password) != ""
    ensures var o1 := RegisterPasswordRoute.Handle(st, jar, Some(email), Some(password), newUserId, hash);
      var o2 := LoginPasswordRoute.Handle(o1.store, jar2, Some(email), Some(password), verifyPassword);
      && o2.response == Response(OK, SignedInBody(UserRef(newUserId, email)))
      && o2.jar == jar2[SESSION := Cookie(newUserId, SESSION_MAX_AGE)]
  {
    FindUserByEmailAppend(st.users, User(newUserId, email, Some(hash(password))));
  }

  /** In a valid store, after a passkey sign-in the session resolves to the
      authenticator's owner. */
  lemma SessionResolvesAfterPasskeySignIn(
    st: Store, jar: Jar, r: AssertionResponse, env: Env, verify: AssertionCheck -> AssertionVerdict, a: Authenticator)
    requires Valid(st) && a in st.authenticators && a.userId != ""
    requires r.id == Some(a.credentialID)
    requires LoginVerifyRoute.Handle(st, jar, Some(r), env, verify).response.status == OK
    ensures var o := LoginVerifyRoute.Handle(st, jar, Some(r), env, verify);
      var me := MeRoute.Handle(o.store, o.jar);
      && me.jar == o.jar
      && me.response.body.summary.Some?
      && me.response.body.summary.value.id == a.userId
  {
    FindAuthenticatorUnique(st.authenticators, a);
    var o := LoginVerifyRoute.Handle(st, jar, Some(r), env, verify);
    assert IdTaken(st.users, a.userId);
    assert Value(o.jar, SESSION) == Some(a.userId);
  }

  /** A deleted passkey can no longer sign in: the credential is not found. */
  lemma DeletedCredentialNotFound(
    st: Store, jar: Jar, credentialID: string,
    jar2: Jar, r: AssertionResponse, env: Env, verify: AssertionCheck -> AssertionVerdict)
    requires DeleteAuthenticatorRoute.Handle(st, jar, Some(credentialID)).response.status == OK
    requires Truthy(Value(jar2, AUTH_CHALLENGE)) && r.id == Some(credentialID)
    ensures var o := DeleteAuthenticatorRoute.Handle(st, jar, Some(credentialID));
      LoginVerifyRoute.Handle(o.store, jar2, Some(r), env, verify).response == Error(NOT_FOUND, "Authenticator not found")
  {
  }

  /** After logging out there is no current user. */
  lemma LogoutEndsSession(st: Store, jar: Jar)
    ensures var o := LogoutRoute.Handle(st, jar);
      MeRoute.Handle(o.store, o.jar).response == Response(OK, CurrentUserBody(None))
  {
  }
}
