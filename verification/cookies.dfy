/** The cookie jar of one browser as the routes read and write it: a cookie
    name maps to its value and the max-age it was set with. */
module Cookies {
  import opened Values

  datatype Cookie = Cookie(value: string, maxAge: nat)

  type Jar = map<string, Cookie>

  const REG_CHALLENGE := "reg-challenge"
  const AUTH_CHALLENGE := "auth-challenge"
  const SESSION := "session"

  /** Challenges live five minutes, sessions one day (in seconds). */
  const CHALLENGE_MAX_AGE := 60 * 5
  const SESSION_MAX_AGE := 60 * 60 * 24

  /** `cookieStore.get(name)?.value` */
  function Value(jar: Jar, name: string): (v: Option<string>)
    ensures v.Some? <==> name in jar
    ensures v.Some? ==> v.value == jar[name].value
  {
    if name in jar then Some(jar[name].value) else None
  }

  /** `after` holds the same cookies as `before`, except perhaps those named in `names`. */
  ghost predicate AgreeExcept(before: Jar, after: Jar, names: set<string>) {
    forall n :: n !in names ==> (n in before <==> n in after) && (n in before && n in after ==> before[n] == after[n])
  }

  class CookieJar {
    var cookies: Jar

    constructor (initial: Jar)
      ensures cookies == initial
    {
      cookies := initial;
    }

    function Get(name: string): Option<string>
      reads this
    {
      Value(cookies, name)
    }

    /** `cookieStore.set(name, value, { maxAge })` */
    method Set(name: string, value: string, maxAge: nat)
      modifies this
      ensures cookies == old(cookies)[name := Cookie(value, maxAge)]
    {
      cookies := cookies[name := Cookie(value, maxAge)];
    }

    /** `cookieStore.delete(name)` */
    method Delete(name: string)
      modifies this
      ensures cookies == old(cookies) - {name}
    {
      cookies := cookies - {name};
    }
  }
}
