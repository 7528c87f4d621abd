/** The tagged errors that travel in the error channel of the workflows
    (`_tag` in the source), and what each carries as its `error` cause. */
module Errors {

  datatype Error =
      /** effect/schema's ParseError; `path` is the path of its (first) issue. */
    | ParseError(path: seq<string>)
    | DataBaseUnknownError(cause: Cause)
    | WorkflowUnknownError(cause: Cause)
    | UserAlreadyExistsError(userName: string)
    | AuthenticatorNotFoundError(credentialID: string)
    | NotFoundUserError(userID: string)
      /** What `Effect.tryPromise`/`Effect.try` without a `catch` yields. */
    | UnknownException

  /** The `error: unknown` payload of the two generic errors. */
  datatype Cause =
      /** The DynamoDB client rejected the request (I/O, throttling, a failed condition). */
    | ClientFailure
      /** A `@simplewebauthn/server` call rejected. */
    | LibraryFailure
      /** A literal string such as 'invalidUserDataUser'. */
    | Message(text: string)
      /** An `Error` thrown inside a `try` block. */
    | Thrown(message: string)
      /** Another tagged error, wrapped by `mapError`. */
    | Caused(inner: Error)

  /** Errors the transport layer must never explain to the caller. */
  predicate IsOpaque(e: Error) {
    e.DataBaseUnknownError? || e.WorkflowUnknownError? || e.UnknownException?
  }
}
