/** packages/blog-api/src/domain/workflows/auth/check-session-workflow.ts. */
module CheckSessionFlow {
  import opened Wrappers
  import opened Errors
  import opened User
  import opened UserRepository

  datatype PublicUser = PublicUser(userName: string)

  /** `{isLoggedIn: true, user: {userName}}`. */
  datatype SessionStatus = SessionStatus(isLoggedIn: bool, user: PublicUser)

  /** `checkUserWorkflow(getUser)({userID})`: a found user is logged in under
      its name, a missing one is a NotFoundUserError, a lookup error passes
      through unchanged. */
  function CheckUserWorkflow(getUser: UserID -> Result<Option<UserRecord>, Error>, userID: UserID)
    : (r: Result<SessionStatus, Error>)
    ensures r.Success? <==> getUser(userID).Success? && getUser(userID).value.Some?
    ensures r.Success? ==> r.value == SessionStatus(true, PublicUser(getUser(userID).value.value.userName))
    ensures getUser(userID) == Success(None) ==> r == Failure(NotFoundUserError(userID))
    ensures getUser(userID).Failure? ==> r == Failure(getUser(userID).error)
  {
    var user :- getUser(userID);
    match user
    case Some(u) => Success(SessionStatus(true, PublicUser(u.userName)))
    case None => Failure(NotFoundUserError(userID))
  }
}
