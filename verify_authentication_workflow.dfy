/** packages/blog-api/src/domain/workflows/auth/verify-authentication-workflow.ts. */
module VerifyAuthenticationFlow {
  import opened Wrappers
  import opened Values
  import opened Errors
  import opened User
  import Base64
  import Utf8
  import opened WebAuthn

  /** What the workflow resolves to. */
  datatype AuthenticationOutcome = AuthenticationOutcome(userID: UserID, verified: bool)

  /** `UserID(Buffer.from(userHandle, 'base64').toString('utf-8'))`, every
      failure wrapped in a WorkflowUnknownError. */
  function DecodeUserHandle(handle: string): (r: Result<UserID, Error>)
    ensures r.Success? <==> Base64.Decode(handle).Some? && IsUuidV4(Utf8.Decode(Base64.Decode(handle).value))
    ensures r.Success? ==> r.value == Utf8.Decode(Base64.Decode(handle).value)
    ensures r.Failure? ==> r.error.WorkflowUnknownError?
  {
    match Base64.Decode(handle)
    case None => Failure(WorkflowUnknownError(Caused(UnknownException)))
    case Some(bytes) =>
      match DecodeUserID(Str(Utf8.Decode(bytes)))
      case Success(u) => Success(u)
      case Failure(e) => Failure(WorkflowUnknownError(Caused(e)))
  }

  /** The handle a client returns for a registered user, the UTF-8 bytes of
      its user ID in either base64 alphabet, decodes to that user ID. */
  lemma EncodedHandleDecodes(u: UserID, url: bool)
    ensures DecodeUserHandle(Base64.EncodeWith(Utf8.Encode(u), url)) == Success(u)
  {
    Base64.DecodeEncode(Utf8.Encode(u), url);
    UserIDIsAscii(u);
    Utf8.DecodeEncodeAscii(u);
    UserIDCharacterisation(u);
  }

  /** The argument the library is called with: the session's challenge, the
      configured origin and relying party, the stored device, and user
      verification not required. */
  function AuthenticationCheck(config: Config, response: AuthenticationResponseJSON, challenge: Value, device: AuthenticatorDevice)
    : VerifyAuthenticationOpts
  {
    VerifyAuthenticationOpts(response, challenge, config.corsOrigin, config.rpID, device, false)
  }

  /** `verifyAuthenticationWorkflow(getAuthenticatorDevice)(params)`: the user
      handle names the user, the credential ID names the device under that
      user, and the library checks the assertion against that device. The
      outcome carries the user named by the handle and the library's
      `verified` flag, which is not checked here. */
  function VerifyAuthenticationWorkflow(
    config: Config,
    getDevice: (UserID, string) -> Result<Option<AuthenticatorDevice>, Error>,
    verify: AuthenticationVerifier,
    response: AuthenticationResponseJSON,
    challenge: Value)
    : (r: Result<AuthenticationOutcome, Error>)
    ensures response.userHandle.None? ==> r == Failure(WorkflowUnknownError(Message("notfound userHandle")))
    ensures response.userHandle.Some? && DecodeUserHandle(response.userHandle.value).Failure? ==>
      r == Failure(DecodeUserHandle(response.userHandle.value).error)
    ensures response.userHandle.Some? && DecodeUserHandle(response.userHandle.value).Success? ==>
      var u := DecodeUserHandle(response.userHandle.value).value;
      && (getDevice(u, response.id).Failure? ==> r == Failure(getDevice(u, response.id).error))
      && (getDevice(u, response.id) == Success(None) ==> r == Failure(AuthenticatorNotFoundError(response.id)))
      && (getDevice(u, response.id).Success? && getDevice(u, response.id).value.Some? ==>
            var res := verify(AuthenticationCheck(config, response, challenge, getDevice(u, response.id).value.value));
            && (res.None? ==> r == Failure(WorkflowUnknownError(LibraryFailure)))
            && (res.Some? ==> r == Success(AuthenticationOutcome(u, res.value.verified))))
    ensures r.Success? ==>
      && response.userHandle.Some?
      && DecodeUserHandle(response.userHandle.value) == Success(r.value.userID)
  {
    match response.userHandle
    case None => Failure(WorkflowUnknownError(Message("notfound userHandle")))
    case Some(handle) =>
      var u :- DecodeUserHandle(handle);
      var device :- getDevice(u, response.id);
      match device
      case None => Failure(AuthenticatorNotFoundError(response.id))
      case Some(d) =>
        match verify(AuthenticationCheck(config, response, challenge, d))
        case None => Failure(WorkflowUnknownError(LibraryFailure))
        case Some(res) => Success(AuthenticationOutcome(u, res.verified))
  }

  /** A credential unknown under the handle's user is refused as such, without
      consulting the library: the outcome is the same for any two verifiers. */
  lemma UnknownCredentialRefused(
    config: Config,
    getDevice: (UserID, string) -> Result<Option<AuthenticatorDevice>, Error>,
    verify1: AuthenticationVerifier,
    verify2: AuthenticationVerifier,
    u: UserID,
    url: bool,
    credentialID: string,
    signed: string,
    challenge: Value)
    requires getDevice(u, credentialID) == Success(None)
    ensures var response := AuthenticationResponseJSON(credentialID, Some(Base64.EncodeWith(Utf8.Encode(u), url)), signed);
      && VerifyAuthenticationWorkflow(config, getDevice, verify1, response, challenge)
      == VerifyAuthenticationWorkflow(config, getDevice, verify2, response, challenge)
      == Failure(AuthenticatorNotFoundError(credentialID))
  {
    EncodedHandleDecodes(u, url);
  }

  /** With a library that binds the challenge, an assertion over another
      challenge than the session's never logs anyone in. */
  lemma TamperedChallengeRefused(
    config: Config,
    getDevice: (UserID, string) -> Result<Option<AuthenticatorDevice>, Error>,
    verify: AuthenticationVerifier,
    response: AuthenticationResponseJSON,
    challenge: Value)
    requires BindsAuthenticationChallenge(verify)
    requires challenge != Str(response.clientDataChallenge)
    ensures VerifyAuthenticationWorkflow(config, getDevice, verify, response, challenge).Failure?
  {
  }
}
