/** The interface of `@simplewebauthn/server` as the workflows call it. The
    library itself (attestation and assertion parsing, CBOR, signatures,
    randomness) is not modelled: each of its functions is a parameter of the
    workflow that calls it, receiving exactly the argument record the code builds,
    and what the model needs to assume about it is stated as a named predicate. */
module WebAuthn {
  import opened Wrappers
  import opened Values

  /** `config.auth.rpID`, `config.auth.rpName` and `config.corsOrigin`. */
  datatype Config = Config(rpID: string, rpName: string, corsOrigin: string)

  /** COSE algorithm identifiers: ES256 and RS256. */
  const CoseES256: int := -7
  const CoseRS256: int := -257

  /** The argument of `generateRegistrationOptions`. */
  datatype RegistrationOptionsRequest = RegistrationOptionsRequest(
    rpName: string,
    rpID: string,
    userName: string,
    userDisplayName: string,
    userID: seq<byte>,
    timeout: int,
    attestationType: string,
    excludeCredentials: seq<string>,
    residentKey: string,
    userVerification: string,
    supportedAlgorithmIDs: seq<int>)

  /** The members of `PublicKeyCredentialCreationOptionsJSON` that the code reads:
      `challenge` and `user.name`. */
  datatype CreationOptions = CreationOptions(challenge: string, userName: string)

  /** `generateRegistrationOptions`; `None` when it rejects. */
  type RegistrationOptionsGenerator = RegistrationOptionsRequest -> Option<CreationOptions>

  /** The library copies the requested user name into `user.name`. */
  ghost predicate EchoesUserName(generate: RegistrationOptionsGenerator) {
    forall req :: generate(req).Some? ==> generate(req).value.userName == req.userName
  }

  /** The argument of `generateAuthenticationOptions`. */
  datatype AuthenticationOptionsRequest = AuthenticationOptionsRequest(timeout: int, userVerification: string, rpID: string)

  /** `PublicKeyCredentialRequestOptionsJSON`, of which the code reads `challenge`. */
  datatype RequestOptions = RequestOptions(challenge: string)

  /** `generateAuthenticationOptions`; `None` when it rejects. */
  type AuthenticationOptionsGenerator = AuthenticationOptionsRequest -> Option<RequestOptions>

  /** `RegistrationResponseJSON`: the credential id, the challenge inside its
      client data, and `response.transports`. */
  datatype RegistrationResponseJSON = RegistrationResponseJSON(
    id: string,
    clientDataChallenge: string,
    transports: Option<seq<string>>)

  /** The argument of `verifyRegistrationResponse`. The expected challenge is
      whatever the session held, which the code casts to a string unchecked. */
  datatype VerifyRegistrationOpts = VerifyRegistrationOpts(
    response: RegistrationResponseJSON,
    expectedChallenge: Value,
    expectedOrigin: string,
    expectedRPID: string,
    requireUserVerification: bool)

  datatype RegistrationInfo = RegistrationInfo(credentialID: Option<string>, credentialPublicKey: Option<seq<byte>>)

  datatype VerifiedRegistrationResponse = VerifiedRegistrationResponse(verified: bool, registrationInfo: Option<RegistrationInfo>)

  /** `verifyRegistrationResponse`; `None` when it rejects. */
  type RegistrationVerifier = VerifyRegistrationOpts -> Option<VerifiedRegistrationResponse>

  /** The library rejects a response whose client data carries another challenge
      than the expected one. */
  ghost predicate BindsRegistrationChallenge(verify: RegistrationVerifier) {
    forall opts: VerifyRegistrationOpts :: opts.expectedChallenge != Str(opts.response.clientDataChallenge) ==> verify(opts).None?
  }

  /** `AuthenticationResponseJSON`: the credential id, `response.userHandle` and
      the challenge inside its client data. */
  datatype AuthenticationResponseJSON = AuthenticationResponseJSON(
    id: string,
    userHandle: Option<string>,
    clientDataChallenge: string)

  /** `AuthenticatorDevice` as the authenticator repository builds it: the stored
      attributes are cast to the library's type without being checked. */
  datatype AuthenticatorDevice = AuthenticatorDevice(
    credentialID: Value,
    credentialPublicKey: Option<seq<byte>>,
    counter: Value,
    transports: Value)

  /** The argument of `verifyAuthenticationResponse`. */
  datatype VerifyAuthenticationOpts = VerifyAuthenticationOpts(
    response: AuthenticationResponseJSON,
    expectedChallenge: Value,
    expectedOrigin: string,
    expectedRPID: string,
    authenticator: AuthenticatorDevice,
    requireUserVerification: bool)

  datatype VerifiedAuthenticationResponse = VerifiedAuthenticationResponse(verified: bool)

  /** `verifyAuthenticationResponse`; `None` when it rejects. */
  type AuthenticationVerifier = VerifyAuthenticationOpts -> Option<VerifiedAuthenticationResponse>

  ghost predicate BindsAuthenticationChallenge(verify: AuthenticationVerifier) {
    forall opts: VerifyAuthenticationOpts :: opts.expectedChallenge != Str(opts.response.clientDataChallenge) ==> verify(opts).None?
  }
}
