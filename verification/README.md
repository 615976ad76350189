# Passkey and password authentication routes — a Dafny model

This project models the server side of a Next.js application that signs users
in with WebAuthn passkeys or with a password. The core is nine route handlers
and two header helpers:

- `POST /api/auth/register/options` and `POST /api/auth/register/verify`: the
  two halves of a passkey registration;
- `POST /api/auth/login/options` and `POST /api/auth/login/verify`: the two
  halves of a passkey sign-in;
- `DELETE /api/auth/authenticator/delete`: removing one of one's own passkeys;
- `POST /api/auth/register-password` and `POST /api/auth/login-password`;
- `GET /api/auth/me` and `POST /api/auth/logout`;
- `getRPID` and `getOrigin` from `src/lib/auth.ts`.

The handlers read and write two pieces of state:

- the database, with a `User` table (unique `id`, unique `email`, optional
  password hash) and an `Authenticator` table (unique `credentialID`, owning
  `userId`, `counter`, transport hints joined with `,`);
- the browser's cookie jar, with the keys `reg-challenge`, `auth-challenge`
  and `session`.

## How the model is organised

- `Values`: absent-or-present values and JavaScript truthiness of strings.
- `Text`: `split`, `join` and `includes`, with the round trips between split
  and join proved.
- `Headers`: `getRPID` and `getOrigin`.
- `Records`: the two tables as sequences of rows, the `findUnique` lookups,
  the update and delete of authenticator rows, and the schema's constraints
  as the invariant `Valid`.
- `Persistence`: the class `Database`, whose methods create, update and delete
  rows in place. A create that breaks a unique index or the foreign key fails
  and changes nothing.
- `Cookies`: the cookie jar as a map, and the class `CookieJar` with `Set` and
  `Delete`.
- `WebAuthn`: the types exchanged with `@simplewebauthn/server`. This covers
  the options the routes request, the checks they ask for, and the verdicts
  that come back. It also holds the relying-party settings taken from the
  environment and the conversions of the stored transport hints.
- `Http`: status codes, response bodies, and the `Outcome` of a request. An
  outcome is the response plus the store and jar the request leaves behind.
- One module per route. Each has a function `Handle`: the handler as a
  function of the store and jar before the request. Each has a method `Post`,
  `Get` or `Delete`: the handler written as in the source, as early-return
  guards followed by in-place updates of a `Database` and a `CookieJar`. The
  method is proved to produce exactly the outcome `Handle` gives. The logout
  method takes no database, so its contract states the outcome for every
  store. Lemmas next
  to each route state its guard order, its frame conditions and its effect
  on success.
- `Ceremonies`: properties of one request followed by another. Examples: a
  challenge is single-use after success; the verifier is asked to check the
  challenge the options carried; a password sign-up can be followed by a
  sign-in; a passkey sign-in gives a session that `me` resolves; a deleted
  passkey cannot sign in; logging out leaves no current user.

Several things the handlers receive from code that is not part of this model
are passed in as parameters:

- the WebAuthn library's verdicts (a function from the check requested to the
  verdict);
- the fresh challenge the library generates;
- the id the database would give a new user;
- the password hash and the hash comparison (functions);
- the two environment variables `NEXT_PUBLIC_ORIGIN` and `NEXT_PUBLIC_RP_ID`.

### Behaviour of the code worth knowing

- The sign-in route does not compare the new counter with the stored one. It
  stores whatever counter the library returns (`LoginVerifyRoute.CounterNotCheckedByRoute`).
- A challenge is removed only on success. After a failed verification it
  stays, so the same challenge can be tried again.
- The sign-in route checks the challenge cookie before it looks up the
  credential.
- For an assertion without an `id`, the database lookup on an undefined
  unique field throws. Nothing catches it, so the answer is 500.
- A successful passkey sign-in answers with the owner's full stored record,
  password hash included.
- The registration challenge is not bound to a user. The verify step
  resolves the user from the email sent with the response.
- The unique index rejects the insert of a credential id that is already
  stored. Nothing catches this, so the answer is 500 and nothing changes.
- Challenges expire only through the cookie's max-age (300 seconds). No clock
  is consulted.
- `me` reports each authenticator's `createdAt` as its credential id.
- `me` passes both `include` and `select` to its user lookup. The database
  client rejects that combination, so as written every request that carries
  a session is answered 500 (see Findings). The rest of the model uses the
  evidently intended lookup.

## Model

| member | source | states |
|---|---|---|
| `Headers.GetRPID` | src/lib/auth.ts:12-17 | no host header gives `localhost`; otherwise the result is the part of the host before the first `:`: a prefix of the host with no `:`, followed in the host by `:` unless it is all of it; a host without `:` is returned unchanged |
| `Headers.GetOrigin` | src/lib/auth.ts:19-31 | a non-empty `origin` header is returned as is; else a host gives `http://host` exactly when it contains `localhost` and `https://host` otherwise, port kept; with neither, `http://localhost:3000`; never empty |
| `Headers.OriginFromHostAgreesWithRpId` | src/lib/auth.ts:12-31 | without an origin header the origin is a scheme followed by the whole host, and the relying-party id is a prefix of that host |
| `Values.Truthy` | src/app/api/auth/login/verify/route.ts:18 | the JavaScript truth test on an optional string that every guard uses: present and non-empty |
| `Text.Split` | src/lib/auth.ts:16 | `split` on one character gives at least one piece and no piece contains the separator |
| `Text.Includes` | src/lib/auth.ts:26 | `includes` holds exactly when the substring occurs at some position |
| `Text.Join` | src/app/api/auth/register/verify/route.ts:58 | `join`: the pieces with one separator between neighbours; no pieces give `''` |
| `Text.JoinShape` | src/app/api/auth/register/verify/route.ts:58 | `join` of no pieces is `''`; the result starts with the first piece and ends with the last; for separator-free pieces it holds a separator exactly when there are two pieces or more |
| `Text.FirstPiece` | src/lib/auth.ts:16 | the first piece of a split is the longest separator-free prefix; a string without the separator splits into itself |
| `Text.JoinSplit` | src/app/api/auth/login/verify/route.ts:44-46 | joining the pieces of a split with the same separator gives the string back |
| `Text.SplitJoin` | src/app/api/auth/register/verify/route.ts:58 | splitting the join of one or more separator-free pieces gives the pieces back |
| `Records.FindUserByEmail` | src/app/api/auth/register/options/route.ts:16-19 | finds a user exactly when one has the email, and what it finds is a stored user with that email |
| `Records.FindUserById` | src/app/api/auth/me/route.ts:14-24 | finds a user exactly when one has the id, and what it finds is a stored user with that id |
| `Records.FindAuthenticator` | src/app/api/auth/login/verify/route.ts:23-26 | finds an authenticator exactly when one has the credential id, and what it finds is stored with that id |
| `Records.AuthenticatorsOf` | src/app/api/auth/register/options/route.ts:16-19 | a user's `authenticators` relation holds exactly the stored authenticators with that `userId` |
| `Records.WithCounter` | src/app/api/auth/login/verify/route.ts:58-61 | the counter update changes the counter of the rows with that credential id and nothing else |
| `Records.Without` | src/app/api/auth/authenticator/delete/route.ts:36-38 | the delete keeps exactly the rows with another credential id |
| `Records.WithoutRemovesOne` | src/app/api/auth/authenticator/delete/route.ts:36-38 | with unique credential ids, deleting a stored credential removes exactly one row |
| `Records.Valid` | src/app/api/auth/register/options/route.ts:16-26 | the constraints the database enforces: unique user ids, unique emails, unique credential ids, and every authenticator's `userId` naming a stored user |
| `Records.CanCreateUser` | src/app/api/auth/register-password/route.ts:28-33 | a user insert is accepted exactly when neither its id nor its email is already stored |
| `Records.CanCreateAuthenticator` | src/app/api/auth/register/verify/route.ts:51-61 | an authenticator insert is accepted exactly when its credential id is new and its owner is stored |
| `Records.CanCreateUserKeepsSchema` | src/app/api/auth/register-password/route.ts:28-33 | in a valid store, a user insert is accepted exactly when the store with the new row is still valid |
| `Records.CanCreateAuthenticatorKeepsSchema` | src/app/api/auth/register/verify/route.ts:51-61 | in a valid store, an authenticator insert is accepted exactly when the store with the new row is still valid |
| `Persistence.Database.CreateUser` | src/app/api/auth/register-password/route.ts:28-33 | the insert succeeds exactly when id and email are unused, and then appends the row; otherwise nothing changes |
| `Persistence.Database.CreateAuthenticator` | src/app/api/auth/register/verify/route.ts:51-61 | the insert succeeds exactly when the credential id is unused and the owner exists, and then appends the row |
| `Persistence.Database.UpdateCounter` | src/app/api/auth/login/verify/route.ts:58-61 | the update succeeds exactly when the credential is stored, and sets its counter |
| `Persistence.Database.DeleteAuthenticator` | src/app/api/auth/authenticator/delete/route.ts:36-38 | the delete succeeds exactly when the credential is stored, and removes it |
| `Cookies.Value` | src/app/api/auth/login/verify/route.ts:16 | reading a cookie gives its value exactly when the jar holds it |
| `Cookies.CookieJar.Set` | src/app/api/auth/register/options/route.ts:55-60 | the cookie is set to the value and max-age; every other cookie stays |
| `Cookies.CookieJar.Delete` | src/app/api/auth/logout/route.ts:7 | the cookie is removed; every other cookie stays |
| `WebAuthn.ExpectedOrigin` | src/app/api/auth/login/verify/route.ts:38 | a set, non-empty `NEXT_PUBLIC_ORIGIN` is the expected origin; otherwise `http://localhost:3000`; never empty |
| `WebAuthn.ExpectedRPID` | src/app/api/auth/login/verify/route.ts:39 | a set, non-empty `NEXT_PUBLIC_RP_ID` is the expected relying-party id; otherwise `localhost`; never empty |
| `WebAuthn.SplitTransports` | src/app/api/auth/login/verify/route.ts:44-46 | a null or empty stored string gives no hint list; otherwise a non-empty list of comma-free hints |
| `WebAuthn.JoinTransports` | src/app/api/auth/register/verify/route.ts:58 | null exactly when the client sent no hint list or the hints join to `''`; otherwise the hints joined with `,`, which is never empty |
| `WebAuthn.TransportsRoundTrip` | src/app/api/auth/register/verify/route.ts:58 | hints saved at registration come back unchanged when the credential is used, unless they join to `''`, which comes back as no list |
| `WebAuthn.StoredTransportsRoundTrip` | src/app/api/auth/login/verify/route.ts:44-46 | splitting a stored hint string and joining it again gives it back; an empty string gives null |
| `WebAuthn.Descriptor` | src/app/api/auth/register/options/route.ts:38-44 | the entry for one authenticator: its credential id and its stored hints split on `,` |
| `WebAuthn.Descriptors` | src/app/api/auth/register/options/route.ts:38-44 | one descriptor per authenticator, in order, with `id = credentialID` and the split hints |
| `WebAuthn.DescriptorsOfUser` | src/app/api/auth/login/options/route.ts:21-27 | the descriptors for a user's authenticators name exactly that user's credential ids |
| `LoginVerifyRoute.Check` | src/app/api/auth/login/verify/route.ts:35-48 | the verifier gets the response, the challenge from the cookie, the expected origin and relying-party id, and the stored credential id, key and counter; it gets no hint list exactly when the stored string is null or empty, and otherwise the list that joins back to it |
| `LoginVerifyRoute.Conclude` | src/app/api/auth/login/verify/route.ts:32-77 | a throwing or negative verdict is a 400 that changes nothing; success exactly on a verified verdict, and then only the given credential's counter changes, `auth-challenge` goes and `session` names its owner for 86400 seconds |
| `LoginVerifyRoute.Handle` | src/app/api/auth/login/verify/route.ts:7-78 | users never change; any failure changes neither store nor cookies; success answers `verified: true`, removes `auth-challenge`, sets a one-day `session` and leaves every other cookie; only the presented credential's counter can change |
| `LoginVerifyRoute.Post` | src/app/api/auth/login/verify/route.ts:7-78 | the route's guards and updates on the database and the cookie jar produce exactly the outcome of `Handle` |
| `LoginVerifyRoute.MissingResponse` | src/app/api/auth/login/verify/route.ts:11-13 | no response gives 400 "Missing response" and changes nothing |
| `LoginVerifyRoute.ChallengeCheckedBeforeLookup` | src/app/api/auth/login/verify/route.ts:15-20 | with no usable `auth-challenge` the answer is 400 "Challenge not found" whatever the store holds |
| `LoginVerifyRoute.UnknownCredential` | src/app/api/auth/login/verify/route.ts:22-30 | an unknown credential id gives 404 and changes nothing |
| `LoginVerifyRoute.FailedVerificationKeepsChallenge` | src/app/api/auth/login/verify/route.ts:32-77 | a throwing or negative verifier gives 400, the store is unchanged and `auth-challenge` is still there |
| `LoginVerifyRoute.Verified` | src/app/api/auth/login/verify/route.ts:56-74 | in a valid store, a verified assertion sets exactly the matched row's counter to the new counter, removes `auth-challenge`, sets `session` to the owner's id for 86400 seconds and answers with the owner's record |
| `LoginVerifyRoute.CounterNotCheckedByRoute` | src/app/api/auth/login/verify/route.ts:56-61 | a verified assertion succeeds even when the new counter does not exceed the stored one |
| `LoginVerifyRoute.PreservesValid` | src/app/api/auth/login/verify/route.ts:58-61 | a sign-in keeps the unique indexes and the foreign key |
| `RegisterVerifyRoute.Check` | src/app/api/auth/register/verify/route.ts:34-39 | the verifier gets the response, the challenge from the cookie, and the expected origin and relying-party id |
| `RegisterVerifyRoute.NewAuthenticator` | src/app/api/auth/register/verify/route.ts:51-61 | the saved row belongs to the user and carries the library's credential id and counter; its transports are never `''` |
| `RegisterVerifyRoute.Handle` | src/app/api/auth/register/verify/route.ts:6-70 | users never change; failures change nothing; success answers `verified: true`, only removes `reg-challenge` and appends exactly one new-credential row owned by the email's user |
| `RegisterVerifyRoute.Post` | src/app/api/auth/register/verify/route.ts:6-70 | the route's guards, insert and cookie deletion produce exactly the outcome of `Handle` |
| `RegisterVerifyRoute.MissingData` | src/app/api/auth/register/verify/route.ts:10-12 | a missing email or response gives 400 and changes nothing |
| `RegisterVerifyRoute.ChallengeThenUser` | src/app/api/auth/register/verify/route.ts:15-29 | no `reg-challenge` gives 400; otherwise an unknown email gives 404; neither changes anything |
| `RegisterVerifyRoute.FailedVerificationKeepsChallenge` | src/app/api/auth/register/verify/route.ts:31-69 | a throwing verifier gives 400 "Verification failed" and a negative one 400 `verified: false`; nothing changes and `reg-challenge` stays |
| `RegisterVerifyRoute.Verified` | src/app/api/auth/register/verify/route.ts:47-66 | a verified attestation appends one row with the library's credential data, the joined hints and the user's id, removes `reg-challenge` and leaves `session`; a stored credential id gives 500 and no change |
| `RegisterVerifyRoute.PreservesValid` | src/app/api/auth/register/verify/route.ts:51-61 | a registration keeps the unique indexes and the foreign key |
| `RegisterOptionsRoute.Options` | src/app/api/auth/register/options/route.ts:29-50 | options carry `userID = user.id`, `userName = user.email`, the fresh challenge, attestation `none`, and one exclude entry per authenticator with its credential id |
| `RegisterOptionsRoute.Handle` | src/app/api/auth/register/options/route.ts:7-63 | authenticators never change; a user is added only when none had the email; a truthy email succeeds whenever it is stored or the new id is free; success sets `reg-challenge` to the options' challenge for 300 seconds and the options name the email's user |
| `RegisterOptionsRoute.Post` | src/app/api/auth/register/options/route.ts:7-63 | the route's get-or-create and cookie write produce exactly the outcome of `Handle` |
| `RegisterOptionsRoute.MissingEmail` | src/app/api/auth/register/options/route.ts:11-13 | a missing email gives 400 and creates no user |
| `RegisterOptionsRoute.GetOrCreateOnce` | src/app/api/auth/register/options/route.ts:16-26 | after one successful call for an email, a second one creates no user |
| `RegisterOptionsRoute.ExcludesUsersCredentials` | src/app/api/auth/register/options/route.ts:38-44 | in a valid store, `excludeCredentials` describes exactly the user's stored authenticators, in order, for a found and for a new user |
| `RegisterOptionsRoute.PreservesValid` | src/app/api/auth/register/options/route.ts:21-26 | get-or-create keeps the unique indexes |
| `LoginOptionsRoute.Mediation` | src/app/api/auth/login/options/route.ts:39 | `optional` exactly when an email was given, else `conditional` |
| `LoginOptionsRoute.AllowCredentials` | src/app/api/auth/login/options/route.ts:11-27 | there is an allow-list exactly when a non-empty email names a stored user |
| `LoginOptionsRoute.Handle` | src/app/api/auth/login/options/route.ts:7-40 | the store never changes; `auth-challenge` is set to the returned challenge for 300 seconds; no allow-list without an email or for an unknown one; the mediation follows the email |
| `LoginOptionsRoute.Post` | src/app/api/auth/login/options/route.ts:7-40 | the route's lookup and cookie write produce exactly the outcome of `Handle` |
| `LoginOptionsRoute.AllowListIsUsersCredentials` | src/app/api/auth/login/options/route.ts:21-27 | for a known email, the allow-list is one descriptor per authenticator of that user, in store order, and names exactly that user's credential ids |
| `DeleteAuthenticatorRoute.Handle` | src/app/api/auth/authenticator/delete/route.ts:5-48 | cookies and users never change; only success changes the store, and then the session user owns the credential and exactly the rows with that credential id are gone |
| `DeleteAuthenticatorRoute.Delete` | src/app/api/auth/authenticator/delete/route.ts:5-48 | the route's guards and delete produce exactly the outcome of `Handle` |
| `DeleteAuthenticatorRoute.NoSession` | src/app/api/auth/authenticator/delete/route.ts:7-12 | no session gives 401 whatever the body holds |
| `DeleteAuthenticatorRoute.MissingOrUnknownCredential` | src/app/api/auth/authenticator/delete/route.ts:17-29 | a missing credential id gives 400, an unknown one 404; nothing changes |
| `DeleteAuthenticatorRoute.OthersCredentialForbidden` | src/app/api/auth/authenticator/delete/route.ts:31-33 | another user's credential gives 403 and nothing changes |
| `DeleteAuthenticatorRoute.OwnCredentialRemoved` | src/app/api/auth/authenticator/delete/route.ts:35-40 | in a valid store, deleting one's own credential removes exactly that row and keeps every other authenticator and user |
| `DeleteAuthenticatorRoute.PreservesValid` | src/app/api/auth/authenticator/delete/route.ts:36-38 | a deletion keeps the unique indexes and the foreign key |
| `RegisterPasswordRoute.Handle` | src/app/api/auth/register-password/route.ts:6-55 | authenticators never change; failures change nothing; an existing email gives 400 "User already exists"; a new email with a free id succeeds; success appends one user with the email and the hashed password, sets `session` to its id for 86400 seconds and answers with only id and email |
| `RegisterPasswordRoute.Post` | src/app/api/auth/register-password/route.ts:6-55 | the route's check, insert and cookie write produce exactly the outcome of `Handle` |
| `RegisterPasswordRoute.MissingFields` | src/app/api/auth/register-password/route.ts:11-13 | a missing email or password gives 400 and changes nothing |
| `RegisterPasswordRoute.PreservesValid` | src/app/api/auth/register-password/route.ts:16-33 | a sign-up keeps emails (and ids) unique |
| `LoginPasswordRoute.Handle` | src/app/api/auth/login-password/route.ts:6-56 | the store never changes; failures leave the cookies; success exactly when a user has that email, its stored hash is non-empty and the comparison accepts the password; success sets only `session` to the user's id and answers with id and email |
| `LoginPasswordRoute.Post` | src/app/api/auth/login-password/route.ts:6-56 | the route's guards and cookie write produce exactly the outcome of `Handle` |
| `LoginPasswordRoute.MissingFields` | src/app/api/auth/login-password/route.ts:11-13 | missing fields give 400 |
| `LoginPasswordRoute.SameAnswerForUnknownEmailAndWrongPassword` | src/app/api/auth/login-password/route.ts:20-34 | an unknown email and a wrong password both give 401 "Invalid email or password"; a user without password gets the distinct passkey message |
| `MeRoute.Summaries` | src/app/api/auth/me/route.ts:37-41 | one entry per authenticator, in order, with `id = credentialID`, `deviceType = credentialDeviceType` and `createdAt = credentialID` |
| `MeRoute.Summarize` | src/app/api/auth/me/route.ts:31-43 | `hasPassword` exactly when the stored hash is non-null and non-empty, `hasPasskey` exactly when the list of the user's authenticators is non-empty, one entry per authenticator |
| `MeRoute.Handle` | src/app/api/auth/me/route.ts:5-51 | the store never changes and the status is 200; there is a user exactly when the session names a stored user, and then the answer is that user's summary; a session naming no user is removed, and the cookies change in no other way |
| `MeRoute.Get` | src/app/api/auth/me/route.ts:5-51 | the route's lookup and stale-session deletion produce exactly the outcome of `Handle` |
| `MeRoute.HandleAsWritten` | src/app/api/auth/me/route.ts:5-51 | the handler as written: nothing changes; 200 with no user exactly when there is no session, and 500 otherwise |
| `MeRoute.AsWrittenNeverResolves` | src/app/api/auth/me/route.ts:14-29 | as written, a stored user's own session gets 500 where the intended handler answers with that user's summary, and a stale session is kept where the intended handler clears it |
| `MeRoute.SummariesName` | src/app/api/auth/me/route.ts:37-41 | the summary list names a credential id exactly when one of the listed authenticators has it |
| `MeRoute.PasskeysOfUser` | src/app/api/auth/me/route.ts:36-41 | `hasPasskey` holds exactly when some stored authenticator belongs to the user, and the listed ids are exactly the user's credential ids |
| `LogoutRoute.Handle` | src/app/api/auth/logout/route.ts:4-16 | afterwards there is no `session`; other cookies and the store are unchanged; the answer is `success: true` |
| `LogoutRoute.Post` | src/app/api/auth/logout/route.ts:4-16 | the route removes `session`, answers `success: true`, and produces for every store exactly the outcome of `Handle` |
| `LogoutRoute.Idempotent` | src/app/api/auth/logout/route.ts:7 | logging out twice leaves the same state as once |
| `Ceremonies.RegistrationChallengeSingleUse` | src/app/api/auth/register/verify/route.ts:63-64 | after a successful registration any further registration attempt finds no challenge |
| `Ceremonies.AuthenticationChallengeSingleUse` | src/app/api/auth/login/verify/route.ts:63-64 | after a successful sign-in any replayed assertion finds no challenge |
| `Ceremonies.RegistrationChallengeDoesNotSignIn` | src/app/api/auth/register/options/route.ts:54-60 | a registration challenge never serves as a sign-in challenge |
| `Ceremonies.SignInChecksIssuedChallenge` | src/app/api/auth/login/options/route.ts:31-37 | after sign-in options, the verifier checks against the challenge the options carried, and the sign-in succeeds exactly when it verifies |
| `Ceremonies.RegistrationChecksIssuedChallenge` | src/app/api/auth/register/options/route.ts:54-62 | after registration options, the verifier checks against the issued challenge, and a credential is saved exactly when it verifies with info and the id is new |
| `Ceremonies.PasswordSignUpThenSignIn` | src/app/api/auth/login-password/route.ts:16-43 | a password sign-up followed by a sign-in with the same credentials gives a session for the new user |
| `Ceremonies.SessionResolvesAfterPasskeySignIn` | src/app/api/auth/me/route.ts:14-29 | in a valid store, the session a passkey sign-in sets resolves to the authenticator's owner |
| `Ceremonies.DeletedCredentialNotFound` | src/app/api/auth/authenticator/delete/route.ts:36-38 | a deleted passkey can no longer sign in: its id is not found |
| `Ceremonies.LogoutEndsSession` | src/app/api/auth/logout/route.ts:7 | after logging out there is no current user |

## Left out

- The WebAuthn library `@simplewebauthn/server` is not modelled. This covers
  option generation, random challenges, and attestation and assertion
  checking, including any counter or clone check it makes. Its answers are
  parameters.
- Password hashing and comparison (`hashPassword`, `verifyPassword`) are
  function parameters. The hash is treated as a function of the password, so
  bcrypt's random salt is not modelled.
- The database's id generator is a parameter: the id a new user would get.
  The `createdAt` timestamp of users is not modelled.
- Counters are unbounded naturals. The 64-bit column and the route's
  `Number(counter)` conversion, which loses precision above 2^53, are not
  modelled.
- Cookies keep only name, value and max-age. `httpOnly`, `secure` and
  `sameSite` are dropped. A deleted cookie is removed from the jar. Expiry
  over time is not modelled because the code has no clock.
- The options the library returns carry more fields than the model, such as
  key parameters and timeout. The model keeps the fields the routes pass in,
  plus the challenge. The constant descriptor `type: 'public-key'` is omitted.
- JSON parsing of request bodies is not modelled. Body fields are absent or
  strings; other JSON values are left out.
- Exceptions reach a 500 answer either through the route's catch-all or
  because nothing catches them. The model answers `ServerError` only where a
  modelled store operation fails: a unique index, the foreign key, an
  undefined lookup key, or (in `MeRoute.HandleAsWritten`) the rejected
  combination of `include` and `select` in one query. The error message text is not modelled. Failures of
  the database connection itself are left out.
- Relation order: the model lists a user's authenticators in insertion order.
  The route's query carries no `orderBy`, so the database promises no order.
  The order claims of `RegisterOptionsRoute.ExcludesUsersCredentials`,
  `LoginOptionsRoute.AllowListIsUsersCredentials` and `MeRoute.Summaries`
  hold for the modelled order only.
- Concurrent requests, with races on a challenge or on a counter, are not
  modelled. Each request is one atomic step.
- The pages, React hooks, build and database-initialisation scripts, and the
  Prisma client set-up are not part of this model.

## Findings

| source | as written | input that shows it | evidently intended | confidence | as-written member | corrected member |
|---|---|---|---|---|---|---|
| src/app/api/auth/me/route.ts:14-24 | the user lookup passes `include` and `select` together; the database client rejects that combination, and the catch at lines 44-50 answers 500 | a stored user `u1` and a request whose `session` cookie is `u1` | answer with the selected fields and the user's authenticators; clear a session that names no user | medium, not executed | `MeRoute.AsWrittenNeverResolves` | `MeRoute.Handle` |
