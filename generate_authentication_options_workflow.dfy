/** packages/blog-api/src/domain/workflows/auth/generate-authentication-options-workflow.ts. */
module AuthenticationOptionsFlow {
  import opened Wrappers
  import opened Errors
  import opened WebAuthn

  /** `generateAuthenticationOptionsWorkflow()`: ask the library for request
      options with a 60-second timeout, user verification preferred, for the
      configured relying party, and no allowed-credentials list (the
      credential is discoverable). */
  function GenerateAuthenticationOptionsWorkflow(config: Config, generate: AuthenticationOptionsGenerator)
    : (r: Result<RequestOptions, Error>)
    ensures var req := AuthenticationOptionsRequest(60000, "preferred", config.rpID);
      && (r.Success? <==> generate(req).Some?)
      && (r.Success? ==> Some(r.value) == generate(req))
      && (r.Failure? ==> r.error == WorkflowUnknownError(LibraryFailure))
  {
    match generate(AuthenticationOptionsRequest(60000, "preferred", config.rpID))
    case Some(options) => Success(options)
    case None => Failure(WorkflowUnknownError(LibraryFailure))
  }
}
