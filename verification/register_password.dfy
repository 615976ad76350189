/** POST /api/auth/register-password: signs up with email and password and
    signs the new user in. The email must be new; the password is stored
    hashed. */
module RegisterPasswordRoute {
  import opened Values
  import opened Records
  import opened Cookies
  import opened Http
  import opened Persistence

  /** The handler as a function of the store and the cookie jar before the
      request; `newUserId` is the id the database would give the new user and
      `hash` stands for the salted password hash. */
  function Handle(st: Store, jar: Jar, email: Option<string>, password: Option<string>, newUserId: string,
                  hash: string -> string): (o: Outcome)
    ensures o.store.authenticators == st.authenticators
    ensures o.response.status != OK ==> o.store == st && o.jar == jar
    ensures Truthy(email) && Truthy(password) && EmailTaken(st.users, email.value) ==>
      o == Outcome(Error(BAD_REQUEST, "User already exists"), st, jar)
    ensures Truthy(email) && Truthy(password) && !EmailTaken(st.users, email.value) && !IdTaken(st.users, newUserId) ==>
      o.response.status == OK
    ensures o.response.status == OK ==>
      && Truthy(email) && Truthy(password) && !EmailTaken(st.users, email.value)
      && o.store.users == st.users + [User(newUserId, email.value, Some(hash(password.value)))]
      && o.jar == jar[SESSION := Cookie(newUserId, SESSION_MAX_AGE)]
      && o.response.body == SignedInBody(UserRef(newUserId, email.value))
  {
    if !Truthy(email) || !Truthy(password) then Fail(Error(BAD_REQUEST, "Email and password are required"), st, jar)
    else if FindUserByEmail(st.users, email.value).Some? then Fail(Error(BAD_REQUEST, "User already exists"), st, jar)
    else
      var user := User(newUserId, email.value, Some(hash(password.value)));
      if !CanCreateUser(st, user) then Fail(Response(SERVER_ERROR, ServerError), st, jar)
      else Outcome(Response(OK, SignedInBody(UserRef(user.id, user.email))),
                   st.(users := st.users + [user]), jar[SESSION := Cookie(user.id, SESSION_MAX_AGE)])
  }

  /** The route: fields, existence check, insert, session cookie. */
  method Post(db: Database, jar: CookieJar, email: Option<string>, password: Option<string>, newUserId: string,
              hash: string -> string) returns (res: Response)
    modifies db, jar
    ensures Outcome(res, db.Snapshot(), jar.cookies) == Handle(old(db.Snapshot()), old(jar.cookies), email, password, newUserId, hash)
  {
    if !Truthy(email) || !Truthy(password) {
      return Error(BAD_REQUEST, "Email and password are required");
    }
    var existing := FindUserByEmail(db.users, email.value);
    if existing.Some? {
      return Error(BAD_REQUEST, "User already exists");
    }
    var user := User(newUserId, email.value, Some(hash(password.value)));
    var created := db.CreateUser(user);
    if !created {
      // the id is already in use; the catch-all answers 500
      return Response(SERVER_ERROR, ServerError);
    }
    jar.Set(SESSION, user.id, SESSION_MAX_AGE);
    return Response(OK, SignedInBody(UserRef(user.id, user.email)));
  }

  /** A missing email or password gives 400 and changes nothing. */
  lemma MissingFields(st: Store, jar: Jar, email: Option<string>, password: Option<string>, newUserId: string,
                      hash: string -> string)
    requires !Truthy(email) || !Truthy(password)
    ensures Handle(st, jar, email, password, newUserId, hash)
      == Outcome(Error(BAD_REQUEST, "Email and password are required"), st, jar)
  {
  }

  /** A sign-up keeps the store valid: in particular no two users share an email. */
  lemma PreservesValid(st: Store, jar: Jar, email: Option<string>, password: Option<string>, newUserId: string,
                       hash: string -> string)
    requires Valid(st)
    ensures Valid(Handle(st, jar, email, password, newUserId, hash).store)
  {
    if Truthy(email) && Truthy(password) {
      var user := User(newUserId, email.value, Some(hash(password.value)));
      if !EmailTaken(st.users, email.value) && CanCreateUser(st, user) {
        CreateUserPreservesValid(st, user);
      }
    }
  }
}
