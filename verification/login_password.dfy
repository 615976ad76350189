/** POST /api/auth/login-password: signs in with email and password. Read-only
    guards end in one write of the `session` cookie; the store is never written. */
module LoginPasswordRoute {
  import opened Values
  import opened Records
  import opened Cookies
  import opened Http
  import opened Persistence

  const INVALID_CREDENTIALS := "Invalid email or password"
  const PASSWORD_NOT_SET := "Password not set. Please use passkey login."

  /** The handler as a function of the store and the cookie jar before the
      request; `verifyPassword` stands for the salted-hash comparison. */
  function Handle(st: Store, jar: Jar, email: Option<string>, password: Option<string>,
                  verifyPassword: (string, string) -> bool): (o: Outcome)
    ensures o.store == st
    ensures o.response.status != OK ==> o.jar == jar
    ensures o.response.status == OK <==>
      && Truthy(email) && Truthy(password)
      && FindUserByEmail(st.users, email.value).Some?
      && var user := FindUserByEmail(st.users, email.value).value;
         Truthy(user.password) && verifyPassword(password.value, user.password.value)
    ensures o.response.status == OK ==>
      var user := FindUserByEmail(st.users, email.value).value;
         && o.jar == jar[SESSION := Cookie(user.id, SESSION_MAX_AGE)]
         && o.response.body == SignedInBody(UserRef(user.id, user.email))
  {
    if !Truthy(email) || !Truthy(password) then Fail(Error(BAD_REQUEST, "Email and password are required"), st, jar)
    else match FindUserByEmail(st.users, email.value)
      case None => Fail(Error(UNAUTHORIZED, INVALID_CREDENTIALS), st, jar)
      case Some(user) =>
        if !Truthy(user.password) then Fail(Error(UNAUTHORIZED, PASSWORD_NOT_SET), st, jar)
        else if !verifyPassword(password.value, user.password.value) then Fail(Error(UNAUTHORIZED, INVALID_CREDENTIALS), st, jar)
        else Outcome(Response(OK, SignedInBody(UserRef(user.id, user.email))), st,
                     jar[SESSION := Cookie(user.id, SESSION_MAX_AGE)])
  }

  /** The route: fields, lookup, password presence, comparison, session cookie. */
  method Post(db: Database, jar: CookieJar, email: Option<string>, password: Option<string>,
              verifyPassword: (string, string) -> bool) returns (res: Response)
    modifies jar
    ensures Outcome(res, db.Snapshot(), jar.cookies) == Handle(db.Snapshot(), old(jar.cookies), email, password, verifyPassword)
  {
    if !Truthy(email) || !Truthy(password) {
      return Error(BAD_REQUEST, "Email and password are required");
    }
    var user := FindUserByEmail(db.users, email.value);
    if user.None? {
      return Error(UNAUTHORIZED, INVALID_CREDENTIALS);
    }
    if !Truthy(user.value.password) {
      return Error(UNAUTHORIZED, PASSWORD_NOT_SET);
    }
    var isValid := verifyPassword(password.value, user.value.password.value);
    if !isValid {
      return Error(UNAUTHORIZED, INVALID_CREDENTIALS);
    }
    jar.Set(SESSION, user.value.id, SESSION_MAX_AGE);
    return Response(OK, SignedInBody(UserRef(user.value.id, user.value.email)));
  }

  /** Missing fields give 400. */
  lemma MissingFields(st: Store, jar: Jar, email: Option<string>, password: Option<string>,
                      verifyPassword: (string, string) -> bool)
    requires !Truthy(email) || !Truthy(password)
    ensures Handle(st, jar, email, password, verifyPassword)
      == Outcome(Error(BAD_REQUEST, "Email and password are required"), st, jar)
  {
  }

  /** An unknown email and a wrong password get the same answer, so the
      response does not tell which emails are registered; a passkey-only
      account gets a distinct 401. */
  lemma SameAnswerForUnknownEmailAndWrongPassword(st: Store, jar: Jar, email: string, password: string,
                                                  verifyPassword: (string, string) -> bool)
    requires email != "" && password != ""
    ensures !EmailTaken(st.users, email) ==>
      Handle(st, jar, Some(email), Some(password), verifyPassword).response == Error(UNAUTHORIZED, INVALID_CREDENTIALS)
    ensures EmailTaken(st.users, email) ==>
      var user := FindUserByEmail(st.users, email).value;
      && (Truthy(user.password) && !verifyPassword(password, user.password.value) ==>
            Handle(st, jar, Some(email), Some(password), verifyPassword).response == Error(UNAUTHORIZED, INVALID_CREDENTIALS))
      && (!Truthy(user.password) ==>
            Handle(st, jar, Some(email), Some(password), verifyPassword).response == Error(UNAUTHORIZED, PASSWORD_NOT_SET))
  {
  }
}
