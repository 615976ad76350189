/** What the routes exchange with the WebAuthn server library: the options they
    ask it to generate, the checks they ask it to perform and the verdicts it
    returns. The library itself (challenge generation, attestation and
    assertion checking) is not modelled: a route receives its answers as
    parameters. Also the relying-party settings read from the environment and
    the conversion of stored transport hints. */
module WebAuthn {
  import opened Values
  import opened Text
  import opened Records

  /** `NEXT_PUBLIC_ORIGIN` and `NEXT_PUBLIC_RP_ID`. */
  datatype Env = Env(publicOrigin: Option<string>, publicRpId: Option<string>)

  const DEFAULT_ORIGIN := "http://localhost:3000"
  const DEFAULT_RP_ID := "localhost"
  const RP_NAME := "Next.js WebAuthn"

  /** `process.env.NEXT_PUBLIC_ORIGIN || 'http://localhost:3000'` */
  function ExpectedOrigin(env: Env): (origin: string)
    ensures origin != ""
    ensures Truthy(env.publicOrigin) ==> origin == env.publicOrigin.value
    ensures !Truthy(env.publicOrigin) ==> origin == DEFAULT_ORIGIN
  {
    if Truthy(env.publicOrigin) then env.publicOrigin.value else DEFAULT_ORIGIN
  }

  /** `process.env.NEXT_PUBLIC_RP_ID || 'localhost'` */
  function ExpectedRPID(env: Env): (rpId: string)
    ensures rpId != ""
    ensures Truthy(env.publicRpId) ==> rpId == env.publicRpId.value
    ensures !Truthy(env.publicRpId) ==> rpId == DEFAULT_RP_ID
  {
    if Truthy(env.publicRpId) then env.publicRpId.value else DEFAULT_RP_ID
  }

  /** The stored hints as handed to the library:
      `transports ? transports.split(',') : undefined`. */
  function SplitTransports(stored: Option<string>): (hints: Option<seq<string>>)
    ensures hints.None? <==> !Truthy(stored)
    ensures hints.Some? ==> |hints.value| >= 1 && forall i :: 0 <= i < |hints.value| ==> ',' !in hints.value[i]
  {
    if Truthy(stored) then Some(Split(stored.value, ',')) else None
  }

  /** The client's hints as stored: `transports?.join(',') || null`. */
  function JoinTransports(hints: Option<seq<string>>): (stored: Option<string>)
    ensures stored.None? <==> hints.None? || Join(hints.value, ',') == ""
    ensures stored.Some? ==> stored.value == Join(hints.value, ',') && stored.value != ""
  {
    if hints.None? then None
    else
      var joined := Join(hints.value, ',');
      if joined == "" then None else Some(joined)
  }

  /** Hints saved at registration come back unchanged when the credential is
      used, unless they join to nothing (`[]` or `[""]`), which is saved as null. */
  lemma TransportsRoundTrip(hints: seq<string>)
    requires forall i :: 0 <= i < |hints| ==> ',' !in hints[i]
    ensures Join(hints, ',') != "" ==> SplitTransports(JoinTransports(Some(hints))) == Some(hints)
    ensures Join(hints, ',') == "" ==> SplitTransports(JoinTransports(Some(hints))) == None
  {
    if Join(hints, ',') != "" {
      SplitJoin(hints, ',');
    }
  }

  /** Conversely, splitting a stored string and joining it again gives it back;
      an empty string comes back as null. */
  lemma StoredTransportsRoundTrip(stored: Option<string>)
    ensures JoinTransports(SplitTransports(stored)) == if Truthy(stored) then stored else None
  {
    if Truthy(stored) {
      JoinSplit(stored.value, ',');
    }
  }

  /** An entry of `excludeCredentials` or `allowCredentials` (its `type` is always
      `'public-key'`). */
  datatype CredentialDescriptor = CredentialDescriptor(id: string, transports: Option<seq<string>>)

  function Descriptor(a: Authenticator): CredentialDescriptor {
    CredentialDescriptor(a.credentialID, SplitTransports(a.transports))
  }

  /** `authenticators.map(a => ({ id: a.credentialID, type: 'public-key', transports: ... }))` */
  function Descriptors(auths: seq<Authenticator>): (ds: seq<CredentialDescriptor>)
    ensures |ds| == |auths|
    ensures forall i :: 0 <= i < |auths| ==>
      ds[i].id == auths[i].credentialID && ds[i].transports == SplitTransports(auths[i].transports)
  {
    if auths == [] then [] else [Descriptor(auths[0])] + Descriptors(auths[1..])
  }

  /** The descriptors for one user's authenticators name exactly that user's
      credential ids. */
  lemma DescriptorsOfUser(auths: seq<Authenticator>, userId: string, credentialID: string)
    ensures (exists d :: d in Descriptors(AuthenticatorsOf(auths, userId)) && d.id == credentialID)
        <==> (exists a :: a in auths && a.userId == userId && a.credentialID == credentialID)
  {
    var mine := AuthenticatorsOf(auths, userId);
    var ds := Descriptors(mine);
    if exists d :: d in ds && d.id == credentialID {
      var d :| d in ds && d.id == credentialID;
      var k :| 0 <= k < |ds| && ds[k] == d;
      assert mine[k] in mine;
    }
    if exists a :: a in auths && a.userId == userId && a.credentialID == credentialID {
      var a :| a in auths && a.userId == userId && a.credentialID == credentialID;
      var k :| 0 <= k < |mine| && mine[k] == a;
      assert ds[k] in ds;
    }
  }

  datatype AuthenticatorSelection = AuthenticatorSelection(
    residentKey: string, userVerification: string, authenticatorAttachment: string)

  /** What the registration-options route asks the library for, with the fresh
      challenge the library generates. */
  datatype RegistrationOptions = RegistrationOptions(
    challenge: string,
    rpName: string,
    rpID: string,
    userID: string,
    userName: string,
    attestationType: string,
    excludeCredentials: seq<CredentialDescriptor>,
    authenticatorSelection: AuthenticatorSelection)

  /** What the authentication-options route asks the library for, with the fresh
      challenge; no allow-list leaves the choice of passkey to the browser. */
  datatype AuthenticationOptions = AuthenticationOptions(
    challenge: string,
    rpID: string,
    allowCredentials: Option<seq<CredentialDescriptor>>,
    userVerification: string)

  /** The browser's assertion; only its `id` is read by the route, the rest is
      opaque signed data. */
  datatype AssertionResponse = AssertionResponse(id: Option<string>, signed: seq<bv8>)

  /** The stored authenticator as handed to the library. */
  datatype StoredCredential = StoredCredential(
    credentialID: string, credentialPublicKey: seq<bv8>, counter: nat, transports: Option<seq<string>>)

  /** The arguments of `verifyAuthenticationResponse`. */
  datatype AssertionCheck = AssertionCheck(
    response: AssertionResponse,
    expectedChallenge: string,
    expectedOrigin: string,
    expectedRPID: string,
    authenticator: StoredCredential)

  /** What `verifyAuthenticationResponse` does: throw, answer not verified, or
      answer verified with the authenticator's new counter. */
  datatype AssertionVerdict = AssertionThrows | AssertionRejected | AssertionVerified(newCounter: nat)

  /** The browser's attestation; the route reads the transport hints, the rest
      is opaque signed data. */
  datatype AttestationResponse = AttestationResponse(transports: Option<seq<string>>, signed: seq<bv8>)

  /** The arguments of `verifyRegistrationResponse`. */
  datatype AttestationCheck = AttestationCheck(
    response: AttestationResponse,
    expectedChallenge: string,
    expectedOrigin: string,
    expectedRPID: string)

  /** The new credential the library extracts from a verified attestation. */
  datatype RegistrationInfo = RegistrationInfo(
    credentialID: string,
    credentialPublicKey: seq<bv8>,
    counter: nat,
    credentialDeviceType: string,
    credentialBackedUp: bool)

  /** What `verifyRegistrationResponse` does: throw, or return `verified` and
      possibly `registrationInfo`. */
  datatype AttestationVerdict =
    | AttestationThrows
    | AttestationReturned(verified: bool, registrationInfo: Option<RegistrationInfo>)
}
