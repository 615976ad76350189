/** DELETE /api/auth/authenticator/delete: removes one of the signed-in user's
    passkeys. The session is checked before the body is read; the owner is
    checked before anything is deleted. Cookies are never written. */
module DeleteAuthenticatorRoute {
  import opened Values
  import opened Records
  import opened Cookies
  import opened Http
  import opened Persistence

  /** The handler as a function of the store and the cookie jar before the request. */
  function Handle(st: Store, jar: Jar, credentialID: Option<string>): (o: Outcome)
    ensures o.jar == jar
    ensures o.store.users == st.users
    ensures o.response.status != OK ==> o.store == st
    // only the owner, signed in, can delete, and then exactly that credential goes
    ensures o.response.status == OK ==>
      && o.response.body == SuccessBody
      && Truthy(Value(jar, SESSION)) && Truthy(credentialID)
      && (exists a :: a in st.authenticators && a.credentialID == credentialID.value && a.userId == Value(jar, SESSION).value)
      && forall b :: b in o.store.authenticators <==> b in st.authenticators && b.credentialID != credentialID.value
  {
    var session := Value(jar, SESSION);
    if !Truthy(session) then Fail(Error(UNAUTHORIZED, "Unauthorized"), st, jar)
    else if !Truthy(credentialID) then Fail(Error(BAD_REQUEST, "Credential ID is required"), st, jar)
    else match FindAuthenticator(st.authenticators, credentialID.value)
      case None => Fail(Error(NOT_FOUND, "Authenticator not found"), st, jar)
      case Some(a) =>
        if a.userId != session.value then Fail(Error(FORBIDDEN, "Unauthorized"), st, jar)
        else Outcome(Response(OK, SuccessBody), st.(authenticators := Without(st.authenticators, credentialID.value)), jar)
  }

  /** The route: session, body, lookup, ownership, delete. */
  method Delete(db: Database, jar: CookieJar, credentialID: Option<string>) returns (res: Response)
    modifies db
    ensures Outcome(res, db.Snapshot(), jar.cookies) == Handle(old(db.Snapshot()), jar.cookies, credentialID)
  {
    var session := jar.Get(SESSION);
    if !Truthy(session) {
      return Error(UNAUTHORIZED, "Unauthorized");
    }
    if !Truthy(credentialID) {
      return Error(BAD_REQUEST, "Credential ID is required");
    }
    var found := FindAuthenticator(db.authenticators, credentialID.value);
    if found.None? {
      return Error(NOT_FOUND, "Authenticator not found");
    }
    if found.value.userId != session.value {
      return Error(FORBIDDEN, "Unauthorized");
    }
    var deleted := db.DeleteAuthenticator(credentialID.value);
    assert deleted;
    return Response(OK, SuccessBody);
  }

  /** Without a session the answer is 401 whatever the body holds. */
  lemma NoSession(st: Store, jar: Jar, credentialID: Option<string>)
    requires !Truthy(Value(jar, SESSION))
    ensures Handle(st, jar, credentialID) == Outcome(Error(UNAUTHORIZED, "Unauthorized"), st, jar)
  {
  }

  /** A missing credential id gives 400 and an unknown one 404; neither deletes anything. */
  lemma MissingOrUnknownCredential(st: Store, jar: Jar, credentialID: Option<string>)
    requires Truthy(Value(jar, SESSION))
    ensures !Truthy(credentialID) ==>
      Handle(st, jar, credentialID) == Outcome(Error(BAD_REQUEST, "Credential ID is required"), st, jar)
    ensures Truthy(credentialID) && !CredentialTaken(st.authenticators, credentialID.value) ==>
      Handle(st, jar, credentialID) == Outcome(Error(NOT_FOUND, "Authenticator not found"), st, jar)
  {
  }

  /** A signed-in user asking to delete someone else's passkey gets 403 and the
      store is unchanged. */
  lemma OthersCredentialForbidden(st: Store, jar: Jar, a: Authenticator)
    requires UniqueCredentials(st.authenticators) && a in st.authenticators && a.credentialID != ""
    requires Truthy(Value(jar, SESSION)) && Value(jar, SESSION).value != a.userId
    ensures Handle(st, jar, Some(a.credentialID)) == Outcome(Error(FORBIDDEN, "Unauthorized"), st, jar)
  {
    FindAuthenticatorUnique(st.authenticators, a);
  }

  /** In a valid store, deleting one's own passkey removes exactly one row and
      keeps every other authenticator and user. */
  lemma OwnCredentialRemoved(st: Store, jar: Jar, a: Authenticator)
    requires Valid(st) && a in st.authenticators && a.credentialID != ""
    requires Value(jar, SESSION) == Some(a.userId) && a.userId != ""
    ensures var o := Handle(st, jar, Some(a.credentialID));
      && o.response == Response(OK, SuccessBody)
      && o.store.users == st.users
      && |o.store.authenticators| == |st.authenticators| - 1
      && a !in o.store.authenticators
      && forall b :: b in st.authenticators && b != a ==> b in o.store.authenticators
  {
    FindAuthenticatorUnique(st.authenticators, a);
    WithoutRemovesOne(st.authenticators, a.credentialID);
    forall b | b in st.authenticators && b != a ensures b.credentialID != a.credentialID {
      var i :| 0 <= i < |st.authenticators| && st.authenticators[i] == b;
      var j :| 0 <= j < |st.authenticators| && st.authenticators[j] == a;
      assert i != j;
    }
  }

  /** A deletion keeps the store valid. */
  lemma PreservesValid(st: Store, jar: Jar, credentialID: Option<string>)
    requires Valid(st)
    ensures Valid(Handle(st, jar, credentialID).store)
  {
    if Truthy(credentialID) {
      WithoutPreservesValid(st, credentialID.value);
    }
  }
}
