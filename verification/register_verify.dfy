/** POST /api/auth/register/verify: completes a passkey registration. The guards
    run in order (body fields, challenge cookie, user, the library's verdict);
    only a verified attestation with registration info changes anything: one
    new authenticator row and the removal of the challenge cookie. No session
    is issued. */
module RegisterVerifyRoute {
  import opened Values
  import opened Records
  import opened Cookies
  import opened WebAuthn
  import opened Http
  import opened Persistence

  /** The arguments the route hands to `verifyRegistrationResponse`. */
  function Check(response: AttestationResponse, challenge: string, env: Env): (c: AttestationCheck)
    ensures c.response == response && c.expectedChallenge == challenge
    ensures c.expectedOrigin == ExpectedOrigin(env) && c.expectedRPID == ExpectedRPID(env)
  {
    AttestationCheck(response, challenge, ExpectedOrigin(env), ExpectedRPID(env))
  }

  /** The row saved for a verified attestation: the library's credential data,
      the client's hints joined with `,` (null when that gives nothing), owned
      by the user. */
  function NewAuthenticator(info: RegistrationInfo, response: AttestationResponse, owner: User): (a: Authenticator)
    ensures a.userId == owner.id && a.credentialID == info.credentialID && a.counter == info.counter
    ensures a.transports.Some? ==> a.transports.value != ""
  {
    Authenticator(info.credentialID, info.credentialPublicKey, info.counter, info.credentialDeviceType,
                  info.credentialBackedUp, JoinTransports(response.transports), owner.id)
  }

  /** The handler as a function of the store and the cookie jar before the request. */
  function Handle(st: Store, jar: Jar, email: Option<string>, response: Option<AttestationResponse>, env: Env,
                  verify: AttestationCheck -> AttestationVerdict): (o: Outcome)
    ensures o.store.users == st.users
    ensures o.response.status != OK ==> o.store == st && o.jar == jar
    ensures o.response.status == OK ==>
      && o.response == Response(OK, VerifiedBody(true, None))
      && o.jar == jar - {REG_CHALLENGE}
      && Truthy(email) && EmailTaken(st.users, email.value)
      && |o.store.authenticators| == |st.authenticators| + 1
      && o.store.authenticators[..|st.authenticators|] == st.authenticators
      && o.store.authenticators[|st.authenticators|].userId == FindUserByEmail(st.users, email.value).value.id
      && !CredentialTaken(st.authenticators, o.store.authenticators[|st.authenticators|].credentialID)
  {
    if !Truthy(email) || response.None? then Fail(Error(BAD_REQUEST, "Missing data"), st, jar)
    else
      var challenge := Value(jar, REG_CHALLENGE);
      if !Truthy(challenge) then Fail(Error(BAD_REQUEST, "Challenge not found"), st, jar)
      else match FindUserByEmail(st.users, email.value)
        case None => Fail(Error(NOT_FOUND, "User not found"), st, jar)
        case Some(user) =>
          match verify(Check(response.value, challenge.value, env))
          case AttestationThrows => Fail(Error(BAD_REQUEST, "Verification failed"), st, jar)
          case AttestationReturned(verified, info) =>
            if verified && info.Some? then
              var a := NewAuthenticator(info.value, response.value, user);
              if !CanCreateAuthenticator(st, a) then Fail(Response(SERVER_ERROR, ServerError), st, jar)
              else
                var auths := st.authenticators + [a];
                assert auths[..|st.authenticators|] == st.authenticators;
                Outcome(Response(OK, VerifiedBody(true, None)), st.(authenticators := auths), jar - {REG_CHALLENGE})
            else Fail(Response(BAD_REQUEST, VerifiedBody(false, None)), st, jar)
  }

  /** The route: guards with early returns, then the insert and the cookie deletion. */
  method Post(db: Database, jar: CookieJar, email: Option<string>, response: Option<AttestationResponse>, env: Env,
              verify: AttestationCheck -> AttestationVerdict) returns (res: Response)
    modifies db, jar
    ensures Outcome(res, db.Snapshot(), jar.cookies) == Handle(old(db.Snapshot()), old(jar.cookies), email, response, env, verify)
  {
    if !Truthy(email) || response.None? {
      return Error(BAD_REQUEST, "Missing data");
    }
    var challenge := jar.Get(REG_CHALLENGE);
    if !Truthy(challenge) {
      return Error(BAD_REQUEST, "Challenge not found");
    }
    var user := FindUserByEmail(db.users, email.value);
    if user.None? {
      return Error(NOT_FOUND, "User not found");
    }
    var verdict := verify(Check(response.value, challenge.value, env));
    if verdict.AttestationThrows? {
      return Error(BAD_REQUEST, "Verification failed");
    }
    if verdict.verified && verdict.registrationInfo.Some? {
      var a := NewAuthenticator(verdict.registrationInfo.value, response.value, user.value);
      var created := db.CreateAuthenticator(a);
      if !created {
        // the unique index on credentialID rejects the insert; nothing catches it
        return Response(SERVER_ERROR, ServerError);
      }
      jar.Delete(REG_CHALLENGE);
      return Response(OK, VerifiedBody(true, None));
    }
    return Response(BAD_REQUEST, VerifiedBody(false, None));
  }

  /** A missing email or response fails first and changes nothing. */
  lemma MissingData(st: Store, jar: Jar, email: Option<string>, response: Option<AttestationResponse>, env: Env,
                    verify: AttestationCheck -> AttestationVerdict)
    requires !Truthy(email) || response.None?
    ensures Handle(st, jar, email, response, env, verify) == Outcome(Error(BAD_REQUEST, "Missing data"), st, jar)
  {
  }

  /** The challenge cookie is checked before the user is looked up; an unknown
      email then gives 404; neither creates an authenticator. */
  lemma ChallengeThenUser(st: Store, jar: Jar, email: string, r: AttestationResponse, env: Env,
                          verify: AttestationCheck -> AttestationVerdict)
    requires email != ""
    ensures !Truthy(Value(jar, REG_CHALLENGE)) ==>
      Handle(st, jar, Some(email), Some(r), env, verify) == Outcome(Error(BAD_REQUEST, "Challenge not found"), st, jar)
    ensures Truthy(Value(jar, REG_CHALLENGE)) && !EmailTaken(st.users, email) ==>
      Handle(st, jar, Some(email), Some(r), env, verify) == Outcome(Error(NOT_FOUND, "User not found"), st, jar)
  {
  }

  /** When the library throws, the answer is 400, nothing is created and the
      challenge stays; when it does not verify or gives no registration info,
      the answer is `verified: false` and nothing changes either. */
  lemma FailedVerificationKeepsChallenge(st: Store, jar: Jar, email: string, r: AttestationResponse, env: Env,
                                         verify: AttestationCheck -> AttestationVerdict)
    requires email != "" && Truthy(Value(jar, REG_CHALLENGE)) && EmailTaken(st.users, email)
    ensures var v := verify(Check(r, Value(jar, REG_CHALLENGE).value, env));
      v.AttestationThrows? ==>
        Handle(st, jar, Some(email), Some(r), env, verify) == Outcome(Error(BAD_REQUEST, "Verification failed"), st, jar)
    ensures var v := verify(Check(r, Value(jar, REG_CHALLENGE).value, env));
      v.AttestationReturned? && !(v.verified && v.registrationInfo.Some?) ==>
        Handle(st, jar, Some(email), Some(r), env, verify) == Outcome(Response(BAD_REQUEST, VerifiedBody(false, None)), st, jar)
  {
  }

  /** A verified attestation adds exactly one authenticator, at the end, owned
      by the user with that email, carrying the library's credential id and
      counter and the client's hints joined with `,`; it removes the
      registration challenge and leaves the session cookie alone. A credential
      id already stored makes the insert fail with 500 and changes nothing. */
  lemma Verified(st: Store, jar: Jar, email: string, r: AttestationResponse, env: Env,
                 verify: AttestationCheck -> AttestationVerdict, user: User, info: RegistrationInfo)
    requires Valid(st)
    requires email != "" && Truthy(Value(jar, REG_CHALLENGE))
    requires user in st.users && user.email == email
    requires verify(Check(r, Value(jar, REG_CHALLENGE).value, env)) == AttestationReturned(true, Some(info))
    ensures var o := Handle(st, jar, Some(email), Some(r), env, verify);
      if CredentialTaken(st.authenticators, info.credentialID) then
        o == Outcome(Response(SERVER_ERROR, ServerError), st, jar)
      else
        && o.response == Response(OK, VerifiedBody(true, None))
        && o.store == st.(authenticators := st.authenticators + [
             Authenticator(info.credentialID, info.credentialPublicKey, info.counter, info.credentialDeviceType,
                           info.credentialBackedUp, JoinTransports(r.transports), user.id)])
        && o.jar == jar - {REG_CHALLENGE}
        && Value(o.jar, SESSION) == Value(jar, SESSION)
  {
    FindUserByEmailUnique(st.users, user);
    assert IdTaken(st.users, user.id);
  }

  /** A registration keeps the store valid. */
  lemma PreservesValid(st: Store, jar: Jar, email: Option<string>, response: Option<AttestationResponse>, env: Env,
                       verify: AttestationCheck -> AttestationVerdict)
    requires Valid(st)
    ensures Valid(Handle(st, jar, email, response, env, verify).store)
  {
    var o := Handle(st, jar, email, response, env, verify);
    if o.response.status == OK {
      var a := o.store.authenticators[|st.authenticators|];
      var user := FindUserByEmail(st.users, email.value).value;
      assert user in st.users && IdTaken(st.users, a.userId);
      assert o.store.authenticators == st.authenticators + [a];
      CreateAuthenticatorPreservesValid(st, a);
    }
  }
}
