/** POST /api/auth/login/verify: completes a passkey sign-in. The guards run in
    order (response, challenge cookie, stored authenticator, the library's
    verdict); only a verified assertion changes anything: the stored counter,
    the challenge cookie and the session cookie. The route itself does not
    compare counters; that check is left to the library. */
module LoginVerifyRoute {
  import opened Values
  import opened Records
  import opened Cookies
  import opened WebAuthn
  import opened Http
  import opened Persistence

  /** The arguments the route hands to `verifyAuthenticationResponse` for the
      stored authenticator `a`: the stored hints are split on `,`, and a null
      or empty string gives no list at all. */
  function Check(response: AssertionResponse, challenge: string, env: Env, a: Authenticator): (c: AssertionCheck)
    ensures c.response == response && c.expectedChallenge == challenge
    ensures c.expectedOrigin == ExpectedOrigin(env) && c.expectedRPID == ExpectedRPID(env)
    ensures c.authenticator.credentialID == a.credentialID
    ensures c.authenticator.credentialPublicKey == a.credentialPublicKey && c.authenticator.counter == a.counter
    ensures c.authenticator.transports.None? <==> !Truthy(a.transports)
    ensures JoinTransports(c.authenticator.transports) == if Truthy(a.transports) then a.transports else None
  {
    StoredTransportsRoundTrip(a.transports);
    AssertionCheck(response, challenge, ExpectedOrigin(env), ExpectedRPID(env),
      StoredCredential(a.credentialID, a.credentialPublicKey, a.counter, SplitTransports(a.transports)))
  }

  /** What the route does with the library's verdict on the stored
      authenticator `a`: a verified assertion sets that credential's counter,
      replaces the challenge cookie by a one-day session for its owner and
      answers with the owner's record; anything else is a 400 that changes nothing. */
  function Conclude(st: Store, jar: Jar, a: Authenticator, verdict: AssertionVerdict): (o: Outcome)
    ensures o.store.users == st.users
    ensures o.response.status != OK ==> o.store == st && o.jar == jar
    ensures o.response.status == OK <==> verdict.AssertionVerified?
    ensures o.response.status == OK ==>
      && o.response.body.VerifiedBody? && o.response.body.verified
      && o.jar == (jar - {AUTH_CHALLENGE})[SESSION := Cookie(a.userId, SESSION_MAX_AGE)]
    ensures |o.store.authenticators| == |st.authenticators|
    ensures forall i :: 0 <= i < |st.authenticators| ==>
      o.store.authenticators[i] == st.authenticators[i].(counter := o.store.authenticators[i].counter)
    ensures forall i :: 0 <= i < |st.authenticators| && o.store.authenticators[i] != st.authenticators[i] ==>
      st.authenticators[i].credentialID == a.credentialID
  {
    match verdict
    case AssertionThrows => Fail(Error(BAD_REQUEST, "Verification failed"), st, jar)
    case AssertionRejected => Fail(Response(BAD_REQUEST, VerifiedBody(false, None)), st, jar)
    case AssertionVerified(newCounter) =>
      Outcome(Response(OK, VerifiedBody(true, FindUserById(st.users, a.userId))),
              st.(authenticators := WithCounter(st.authenticators, a.credentialID, newCounter)),
              (jar - {AUTH_CHALLENGE})[SESSION := Cookie(a.userId, SESSION_MAX_AGE)])
  }

  /** The handler as a function of the store and the cookie jar before the request. */
  function Handle(st: Store, jar: Jar, response: Option<AssertionResponse>, env: Env,
                  verify: AssertionCheck -> AssertionVerdict): (o: Outcome)
    ensures o.store.users == st.users
    ensures o.response.status != OK ==> o.store == st && o.jar == jar
    ensures o.response.status == OK ==>
      && o.response.body.VerifiedBody? && o.response.body.verified
      && SESSION in o.jar && o.jar[SESSION].maxAge == SESSION_MAX_AGE
      && o.jar == (jar - {AUTH_CHALLENGE})[SESSION := o.jar[SESSION]]
    // only counters change, and only that of the presented credential
    ensures |o.store.authenticators| == |st.authenticators|
    ensures forall i :: 0 <= i < |st.authenticators| ==>
      o.store.authenticators[i] == st.authenticators[i].(counter := o.store.authenticators[i].counter)
    ensures forall i :: 0 <= i < |st.authenticators| && o.store.authenticators[i] != st.authenticators[i] ==>
      response.Some? && response.value.id == Some(st.authenticators[i].credentialID)
  {
    if response.None? then Fail(Error(BAD_REQUEST, "Missing response"), st, jar)
    else
      var challenge := Value(jar, AUTH_CHALLENGE);
      if !Truthy(challenge) then Fail(Error(BAD_REQUEST, "Challenge not found"), st, jar)
      else if response.value.id.None? then Fail(Response(SERVER_ERROR, ServerError), st, jar)
      else match FindAuthenticator(st.authenticators, response.value.id.value)
        case None => Fail(Error(NOT_FOUND, "Authenticator not found"), st, jar)
        case Some(a) => Conclude(st, jar, a, verify(Check(response.value, challenge.value, env, a)))
  }

  /** The route: guards with early returns, then the counter update and the two cookie writes. */
  method Post(db: Database, jar: CookieJar, response: Option<AssertionResponse>, env: Env,
              verify: AssertionCheck -> AssertionVerdict) returns (res: Response)
    modifies db, jar
    ensures Outcome(res, db.Snapshot(), jar.cookies) == Handle(old(db.Snapshot()), old(jar.cookies), response, env, verify)
  {
    if response.None? {
      return Error(BAD_REQUEST, "Missing response");
    }
    var challenge := jar.Get(AUTH_CHALLENGE);
    if !Truthy(challenge) {
      return Error(BAD_REQUEST, "Challenge not found");
    }
    if response.value.id.None? {
      // Prisma rejects a lookup on an undefined unique field; nothing catches it
      return Response(SERVER_ERROR, ServerError);
    }
    var found := FindAuthenticator(db.authenticators, response.value.id.value);
    if found.None? {
      return Error(NOT_FOUND, "Authenticator not found");
    }
    var a := found.value;
    var verdict := verify(Check(response.value, challenge.value, env, a));
    match verdict {
      case AssertionThrows =>
        return Error(BAD_REQUEST, "Verification failed");
      case AssertionRejected =>
        return Response(BAD_REQUEST, VerifiedBody(false, None));
      case AssertionVerified(newCounter) =>
        var owner := FindUserById(db.users, a.userId);
        var updated := db.UpdateCounter(a.credentialID, newCounter);
        assert updated;
        jar.Delete(AUTH_CHALLENGE);
        jar.Set(SESSION, a.userId, SESSION_MAX_AGE);
        return Response(OK, VerifiedBody(true, owner));
    }
  }

  /** Without a response the request fails first and changes nothing. */
  lemma MissingResponse(st: Store, jar: Jar, env: Env, verify: AssertionCheck -> AssertionVerdict)
    ensures Handle(st, jar, None, env, verify) == Outcome(Error(BAD_REQUEST, "Missing response"), st, jar)
  {
  }

  /** The challenge cookie is checked before the credential is looked up: with
      no usable challenge the answer is the same whatever the store holds. */
  lemma ChallengeCheckedBeforeLookup(st: Store, jar: Jar, r: AssertionResponse, env: Env,
                                     verify: AssertionCheck -> AssertionVerdict)
    requires !Truthy(Value(jar, AUTH_CHALLENGE))
    ensures Handle(st, jar, Some(r), env, verify) == Outcome(Error(BAD_REQUEST, "Challenge not found"), st, jar)
  {
  }

  /** A credential id that no stored authenticator has gives 404 and changes nothing. */
  lemma UnknownCredential(st: Store, jar: Jar, r: AssertionResponse, env: Env,
                          verify: AssertionCheck -> AssertionVerdict)
    requires Truthy(Value(jar, AUTH_CHALLENGE))
    requires r.id.Some? && !CredentialTaken(st.authenticators, r.id.value)
    ensures Handle(st, jar, Some(r), env, verify) == Outcome(Error(NOT_FOUND, "Authenticator not found"), st, jar)
  {
  }

  /** When the library throws or does not verify, the answer is 400, the store
      is unchanged and the challenge stays in place for another attempt. */
  lemma FailedVerificationKeepsChallenge(st: Store, jar: Jar, r: AssertionResponse, env: Env,
                                         verify: AssertionCheck -> AssertionVerdict, a: Authenticator)
    requires Truthy(Value(jar, AUTH_CHALLENGE))
    requires r.id.Some? && FindAuthenticator(st.authenticators, r.id.value) == Some(a)
    requires !verify(Check(r, Value(jar, AUTH_CHALLENGE).value, env, a)).AssertionVerified?
    ensures var o := Handle(st, jar, Some(r), env, verify);
      o.response.status == BAD_REQUEST && o.store == st && o.jar == jar && AUTH_CHALLENGE in o.jar
  {
  }

  /** A verified assertion for the stored authenticator at index `k` sets its
      counter to the library's new counter and touches no other row, replaces
      the challenge cookie by a one-day session for the owner, and answers
      with the owner's record. */
  lemma Verified(st: Store, jar: Jar, r: AssertionResponse, env: Env,
                 verify: AssertionCheck -> AssertionVerdict, k: nat, newCounter: nat)
    requires Valid(st)
    requires k < |st.authenticators|
    requires Truthy(Value(jar, AUTH_CHALLENGE))
    requires r.id == Some(st.authenticators[k].credentialID)
    requires verify(Check(r, Value(jar, AUTH_CHALLENGE).value, env, st.authenticators[k])) == AssertionVerified(newCounter)
    ensures var a := st.authenticators[k];
      var o := Handle(st, jar, Some(r), env, verify);
      && o.response == Response(OK, VerifiedBody(true, FindUserById(st.users, a.userId)))
      && FindUserById(st.users, a.userId).Some?
      && o.store == st.(authenticators := st.authenticators[k := a.(counter := newCounter)])
      && o.jar == (jar - {AUTH_CHALLENGE})[SESSION := Cookie(a.userId, SESSION_MAX_AGE)]
  {
    var a := st.authenticators[k];
    FindAuthenticatorUnique(st.authenticators, a);
    var updated := WithCounter(st.authenticators, a.credentialID, newCounter);
    forall i | 0 <= i < |st.authenticators|
      ensures updated[i] == st.authenticators[k := a.(counter := newCounter)][i]
    {
      assert i != k ==> st.authenticators[i].credentialID != a.credentialID;
    }
    assert a in st.authenticators;
  }

  /** The route does not compare counters: a verified assertion is accepted
      even when the new counter does not exceed the stored one. */
  lemma CounterNotCheckedByRoute(st: Store, jar: Jar, r: AssertionResponse, env: Env,
                                 verify: AssertionCheck -> AssertionVerdict, a: Authenticator, newCounter: nat)
    requires Truthy(Value(jar, AUTH_CHALLENGE))
    requires r.id.Some? && FindAuthenticator(st.authenticators, r.id.value) == Some(a)
    requires newCounter <= a.counter
    requires verify(Check(r, Value(jar, AUTH_CHALLENGE).value, env, a)) == AssertionVerified(newCounter)
    ensures Handle(st, jar, Some(r), env, verify).response.status == OK
  {
  }

  /** A sign-in keeps the store valid. */
  lemma PreservesValid(st: Store, jar: Jar, response: Option<AssertionResponse>, env: Env,
                       verify: AssertionCheck -> AssertionVerdict)
    requires Valid(st)
    ensures Valid(Handle(st, jar, response, env, verify).store)
  {
    if response.Some? && response.value.id.Some? {
      match FindAuthenticator(st.authenticators, response.value.id.value)
      case None =>
      case Some(a) =>
        forall c: nat ensures Valid(st.(authenticators := WithCounter(st.authenticators, a.credentialID, c))) {
          WithCounterPreservesValid(st, a.credentialID, c);
        }
    }
  }
}
