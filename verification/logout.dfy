/** POST /api/auth/logout: ends the session by deleting the `session` cookie. */
module LogoutRoute {
  import opened Records
  import opened Cookies
  import opened Http

  /** The handler as a function of the store and the cookie jar before the request. */
  function Handle(st: Store, jar: Jar): (o: Outcome)
    ensures o.store == st
    ensures o.response == Response(OK, SuccessBody)
    ensures SESSION !in o.jar
    ensures AgreeExcept(jar, o.jar, {SESSION})
  {
    Outcome(Response(OK, SuccessBody), st, jar - {SESSION})
  }

  /** The route. */
  method Post(jar: CookieJar) returns (res: Response)
    modifies jar
    ensures res == Response(OK, SuccessBody)
    ensures jar.cookies == old(jar.cookies) - {SESSION}
    ensures forall st :: Outcome(res, st, jar.cookies) == Handle(st, old(jar.cookies))
  {
    jar.Delete(SESSION);
    return Response(OK, SuccessBody);
  }

  /** Logging out twice leaves the same state as logging out once. */
  lemma Idempotent(st: Store, jar: Jar)
    ensures var o := Handle(st, jar); Handle(o.store, o.jar) == o
  {
  }
}
