/** The responses the routes send (status and JSON body) and the outcome of one
    request: the response and the store and cookie jar it leaves behind. */
module Http {
  import opened Values
  import opened Records
  import opened Cookies
  import opened WebAuthn

  const OK := 200
  const BAD_REQUEST := 400
  const UNAUTHORIZED := 401
  const FORBIDDEN := 403
  const NOT_FOUND := 404
  const SERVER_ERROR := 500

  /** `{ id, email }` of a signed-in user. */
  datatype UserRef = UserRef(id: string, email: string)

  /** One entry of the `authenticators` list of the current-user summary. */
  datatype AuthenticatorSummary = AuthenticatorSummary(id: string, deviceType: string, createdAt: string)

  /** The current-user summary. */
  datatype UserSummary = UserSummary(
    id: string,
    email: string,
    hasPassword: bool,
    hasPasskey: bool,
    authenticators: seq<AuthenticatorSummary>)

  datatype Body =
    | ErrorBody(error: string)                                   // { error }
    | VerifiedBody(verified: bool, owner: Option<User>)          // { verified, user? }
    | RegistrationOptionsBody(registration: RegistrationOptions)
    | AuthenticationOptionsBody(authentication: AuthenticationOptions, mediation: string)
    | SuccessBody                                                // { success: true }
    | SignedInBody(signedIn: UserRef)                            // { success: true, user }
    | CurrentUserBody(summary: Option<UserSummary>)              // { user }
    | ServerError                                                // an exception the route did not handle

  datatype Response = Response(status: int, body: Body)

  datatype Outcome = Outcome(response: Response, store: Store, jar: Jar)

  function Error(status: int, message: string): Response {
    Response(status, ErrorBody(message))
  }

  /** A request that fails with a response and changes nothing. */
  function Fail(response: Response, st: Store, jar: Jar): Outcome {
    Outcome(response, st, jar)
  }
}
