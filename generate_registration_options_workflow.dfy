/** packages/blog-api/src/domain/workflows/auth/generate-registration-options-workflow.ts.
    `crypto.randomUUID()` is the parameter `uuid`. */
module RegistrationOptionsFlow {
  import opened Wrappers
  import opened Values
  import opened Errors
  import opened User
  import Utf8
  import opened WebAuthn

  datatype RegistrationOptions = RegistrationOptions(userID: UserID, options: CreationOptions)

  /** `generateRegistrationOptionsWorkflow(getUserIDByUserName)(userName)`: a name
      that is taken is refused before a user ID is minted or the library is
      called; otherwise the fresh ID is validated and the library is asked for
      creation options bound to it. */
  function GenerateRegistrationOptionsWorkflow(
    config: Config,
    getUserIDByUserName: UserName -> Result<Option<UserID>, Error>,
    generate: RegistrationOptionsGenerator,
    userName: UserName,
    uuid: string)
    : (r: Result<RegistrationOptions, Error>)
    ensures getUserIDByUserName(userName).Failure? ==> r == Failure(getUserIDByUserName(userName).error)
    ensures getUserIDByUserName(userName).Success? && getUserIDByUserName(userName).value.Some? ==>
      r == Failure(UserAlreadyExistsError(userName))
    ensures getUserIDByUserName(userName) == Success(None) && !IsUuidV4(uuid) ==> r == Failure(ParseError([]))
    ensures getUserIDByUserName(userName) == Success(None) && IsUuidV4(uuid) ==>
      (r.Success? <==> generate(RegistrationRequest(config, userName, uuid)).Some?)
    ensures
      && getUserIDByUserName(userName) == Success(None) && IsUuidV4(uuid)
      && generate(RegistrationRequest(config, userName, uuid)).None?
      ==> r == Failure(WorkflowUnknownError(LibraryFailure))
    ensures r.Success? ==>
      && getUserIDByUserName(userName) == Success(None)
      && r.value.userID == uuid
      && generate(RegistrationRequest(config, userName, uuid)) == Some(r.value.options)
    ensures r.Failure? ==>
      || (getUserIDByUserName(userName).Failure? && r.error == getUserIDByUserName(userName).error)
      || r.error == UserAlreadyExistsError(userName)
      || r.error == ParseError([])
      || r.error == WorkflowUnknownError(LibraryFailure)
  {
    match getUserIDByUserName(userName)
    case Failure(e) => Failure(e)
    case Success(Some(_)) => Failure(UserAlreadyExistsError(userName))
    case Success(None) =>
      match DecodeUserID(Str(uuid))
      case Failure(e) => Failure(e)
      case Success(newUserID) =>
        match generate(RegistrationRequest(config, userName, newUserID))
        case Some(options) => Success(RegistrationOptions(newUserID, options))
        case None => Failure(WorkflowUnknownError(LibraryFailure))
  }

  /** The options the library is asked for: a discoverable credential with
      user verification, no attestation, a 60-second timeout, ES256 or RS256,
      and the new user ID as the user handle, UTF-8 encoded. */
  function RegistrationRequest(config: Config, userName: UserName, userID: string): (req: RegistrationOptionsRequest)
    ensures req.userName == req.userDisplayName == userName
    ensures req.rpID == config.rpID && req.rpName == config.rpName
    ensures req.residentKey == "required" && req.userVerification == "required"
    ensures req.attestationType == "none" && req.excludeCredentials == [] && req.timeout == 60000
    ensures req.supportedAlgorithmIDs == [CoseES256, CoseRS256]
  {
    RegistrationOptionsRequest(
      config.rpName, config.rpID, userName, userName, Utf8.Encode(userID),
      60000, "none", [], "required", "required", [CoseES256, CoseRS256])
  }

  /** The user handle in the request decodes back to the new user ID, which is
      what the authentication ceremony later relies on. */
  lemma UserHandleRoundTrip(config: Config, userName: UserName, userID: UserID)
    ensures Utf8.Decode(RegistrationRequest(config, userName, userID).userID) == userID
  {
    UserIDIsAscii(userID);
    Utf8.DecodeEncodeAscii(userID);
  }

  /** With a library that copies the user name into the options, a successful
      call yields options for the requested name. */
  lemma OptionsForRequestedName(
    config: Config,
    getUserIDByUserName: UserName -> Result<Option<UserID>, Error>,
    generate: RegistrationOptionsGenerator,
    userName: UserName,
    uuid: string)
    requires EchoesUserName(generate)
    requires GenerateRegistrationOptionsWorkflow(config, getUserIDByUserName, generate, userName, uuid).Success?
    ensures GenerateRegistrationOptionsWorkflow(config, getUserIDByUserName, generate, userName, uuid).value.options.userName == userName
  {
  }
}
