/** packages/blog-api/src/domain/workflows/auth/verify-registration-workflow.ts. */
module VerifyRegistrationFlow {
  import opened Wrappers
  import opened Values
  import opened Errors
  import opened User
  import opened WebAuthn
  import opened SingleTable
  import opened UserRepository

  /** The record `verifyRegistrationAttempt` resolves to: the parameters of
      `createUser` and the library's `verified` flag. */
  datatype VerifiedRegistration = VerifiedRegistration(user: NewUser, verified: bool)

  /** What the workflow resolves to. */
  datatype RegistrationOutcome = RegistrationOutcome(verified: bool, userID: UserID)

  /** The library's verdict carries everything `createUser` needs: a non-empty
      credential ID and a public key, and the response lists its transports. */
  predicate CompleteRegistration(res: VerifiedRegistrationResponse, response: RegistrationResponseJSON) {
    && res.registrationInfo.Some?
    && res.registrationInfo.value.credentialID.Some?
    && res.registrationInfo.value.credentialID.value != ""
    && res.registrationInfo.value.credentialPublicKey.Some?
    && response.transports.Some?
  }

  /** The argument the library is called with: the session's challenge, the
      configured origin and relying party, and user verification required. */
  function RegistrationCheck(config: Config, response: RegistrationResponseJSON, challenge: Value): VerifyRegistrationOpts {
    VerifyRegistrationOpts(response, challenge, config.corsOrigin, config.rpID, true)
  }

  /** `verifyRegistrationAttempt(response, challenge, userID, userName)`. A
      rejection by the library and an incomplete verdict are both
      WorkflowUnknownErrors; the `verified` flag itself is passed on, not
      checked. */
  function VerifyRegistrationAttempt(
    config: Config,
    verify: RegistrationVerifier,
    response: RegistrationResponseJSON,
    challenge: Value,
    userID: UserID,
    userName: UserName)
    : (r: Result<VerifiedRegistration, Error>)
    ensures r.Failure? ==> r.error.WorkflowUnknownError?
    ensures verify(RegistrationCheck(config, response, challenge)).None? ==>
      r == Failure(WorkflowUnknownError(LibraryFailure))
    ensures verify(RegistrationCheck(config, response, challenge)).Some? ==>
      (r.Success? <==> CompleteRegistration(verify(RegistrationCheck(config, response, challenge)).value, response))
    ensures r.Success? ==>
      var res := verify(RegistrationCheck(config, response, challenge)).value;
      && res.registrationInfo.Some?
      && r.value.verified == res.verified
      && r.value.user.userID == userID
      && r.value.user.userName == userName
      && Some(r.value.user.credentialID) == res.registrationInfo.value.credentialID
      && Some(r.value.user.credentialPublicKey) == res.registrationInfo.value.credentialPublicKey
      && response.transports == Some(r.value.user.transports)
  {
    match verify(RegistrationCheck(config, response, challenge))
    case None => Failure(WorkflowUnknownError(LibraryFailure))
    case Some(res) =>
      if CompleteRegistration(res, response) then
        var info := res.registrationInfo.value;
        Success(VerifiedRegistration(
          NewUser(userID, userName, info.credentialID.value, info.credentialPublicKey.value, response.transports.value),
          res.verified))
      else
        Failure(WorkflowUnknownError(Thrown("Unexpected registration info")))
  }

  /** `verifyRegistrationOptionsWorkflow(createUser)(params)`: verify, then store
      the user and its credential in one transaction. Nothing is stored unless
      the library accepted the response; a rejected transaction stores nothing. */
  method VerifyRegistrationOptionsWorkflow(
    db: UserTable,
    config: Config,
    verify: RegistrationVerifier,
    response: RegistrationResponseJSON,
    userID: UserID,
    userName: UserName,
    challenge: Value,
    now: int,
    fails: bool)
    returns (r: Result<RegistrationOutcome, Error>)
    modifies db
    ensures var a := VerifyRegistrationAttempt(config, verify, response, challenge, userID, userName);
      && (a.Failure? ==> r == Failure(a.error))
      && (a.Success? ==> (r.Success? <==> !fails && CanCreate(old(db.items), a.value.user)))
      && (r.Success? ==>
            && r.value == RegistrationOutcome(a.value.verified, userID)
            && db.items == WithNewUser(old(db.items), a.value.user, now))
    ensures r.Failure? ==> db.items == old(db.items)
    ensures r.Failure? ==> r.error.WorkflowUnknownError? || r.error == DataBaseUnknownError(ClientFailure)
    ensures VerifyRegistrationAttempt(config, verify, response, challenge, userID, userName).Success? && r.Failure? ==>
      r.error == DataBaseUnknownError(ClientFailure)
  {
    var attempt := VerifyRegistrationAttempt(config, verify, response, challenge, userID, userName);
    if attempt.Failure? {
      return Failure(attempt.error);
    }
    var created := db.CreateUser(attempt.value.user, now, fails);
    if created.Failure? {
      return Failure(created.error);
    }
    r := Success(RegistrationOutcome(attempt.value.verified, userID));
  }

  /** With a library that binds the challenge, a response signed over another
      challenge than the session's is refused before anything is stored. */
  lemma TamperedChallengeRefused(
    config: Config,
    verify: RegistrationVerifier,
    response: RegistrationResponseJSON,
    challenge: Value,
    userID: UserID,
    userName: UserName)
    requires BindsRegistrationChallenge(verify)
    requires challenge != Str(response.clientDataChallenge)
    ensures VerifyRegistrationAttempt(config, verify, response, challenge, userID, userName)
         == Failure(WorkflowUnknownError(LibraryFailure))
  {
    assert verify(RegistrationCheck(config, response, challenge)).None?;
  }
}
