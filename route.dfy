/** packages/blog-api/src/route.ts: the six `/auth` endpoints over a cookie
    session. The session is the map of values the handlers read and write;
    the request body is `None` when `c.req.json()` rejects. */
module Route {
  import opened Wrappers
  import opened Values
  import opened Errors
  import opened User
  import opened WebAuthn
  import opened SingleTable
  import opened UserRepository
  import opened AuthenticatorRepository
  import opened CheckSessionFlow
  import opened RegistrationOptionsFlow
  import opened VerifyRegistrationFlow
  import opened AuthenticationOptionsFlow
  import opened VerifyAuthenticationFlow

  type Session = map<string, Value>

  datatype Body =
    | SessionBody(isLoggedIn: bool, user: Option<PublicUser>)
    | ErrorBody(code: string)
    | ValidationErrorBody(fields: seq<Option<string>>)
    | LogoutBody(success: bool)
    | CreationOptionsBody(creation: CreationOptions)
    | RequestOptionsBody(request: RequestOptions)
    | VerifiedBody(verified: bool)

  datatype Response = Response(status: int, body: Body)

  const InternalServerError: Response := Response(500, ErrorBody("InternalServerError"))

  /** The schema `{userID: userIDSchema, isLoggedIn: Literal(true)}` applied to
      the session, its fields checked in that order. */
  function DecodeLoggedInSession(s: Session): (r: Result<UserID, Error>)
    ensures r.Success? <==> Get(s, "userID").Str? && IsUuidV4(Get(s, "userID").s) && Get(s, "isLoggedIn") == Bool(true)
    ensures r.Success? ==> Get(s, "userID") == Str(r.value)
    ensures r.Failure? ==> r.error.ParseError?
  {
    match DecodeUserID(Get(s, "userID"))
    case Failure(_) => Failure(ParseError(["userID"]))
    case Success(u) =>
      if Get(s, "isLoggedIn") == Bool(true) then Success(u) else Failure(ParseError(["isLoggedIn"]))
  }

  /** The schema `{userName: userNameSchema}` applied to the request body. */
  function DecodeRegistrationOptionsBody(body: Value): (r: Result<UserName, Error>)
    ensures r.Success? <==> body.Obj? && Get(body.fields, "userName").Str? && IsLetters(Get(body.fields, "userName").s)
    ensures r.Success? ==> Get(body.fields, "userName") == Str(r.value)
    ensures r.Failure? ==> r.error == ParseError(if body.Obj? then ["userName"] else [])
  {
    if !body.Obj? then Failure(ParseError([]))
    else
      match DecodeUserName(Get(body.fields, "userName"))
      case Success(n) => Success(n)
      case Failure(_) => Failure(ParseError(["userName"]))
  }

  /** The failure switch of GET /auth/session: a session that is not logged in
      and a user that no longer exists both answer "not logged in"; only a
      database error is a server error. */
  function SessionFailure(e: Error): (r: Response)
    requires e.ParseError? || e.NotFoundUserError? || e.DataBaseUnknownError?
    ensures r.status == 500 <==> IsOpaque(e)
    ensures r.status != 500 ==> r.body == SessionBody(false, None)
    ensures r.status == 200 <==> e.ParseError?
    ensures e.NotFoundUserError? ==> r == Response(400, SessionBody(false, None))
    ensures IsOpaque(e) ==> r == InternalServerError
  {
    match e
    case ParseError(_) => Response(200, SessionBody(false, None))
    case NotFoundUserError(_) => Response(400, SessionBody(false, None))
    case DataBaseUnknownError(_) => InternalServerError
  }

  /** The first field a parse error points at, as `ArrayFormatter` reports it. */
  function ErrorFields(path: seq<string>): seq<Option<string>> {
    [if |path| == 0 then None else Some(path[0])]
  }

  /** A body that is not an object is reported without a field; an object whose
      `userName` fails validation is reported at `userName`. */
  lemma InvalidBodyFields(body: Value)
    requires DecodeRegistrationOptionsBody(body).Failure?
    ensures ErrorFields(DecodeRegistrationOptionsBody(body).error.path)
         == (if body.Obj? then [Some("userName")] else [None])
  {
  }

  /** The failure switch of POST /auth/generate-registration-options: invalid
      input and a taken name are client errors, everything else a server error. */
  function RegistrationOptionsFailure(e: Error): (r: Response)
    requires e.ParseError? || e.UserAlreadyExistsError? || IsOpaque(e)
    ensures r.status == 500 <==> IsOpaque(e)
    ensures r.status == 400 <==> !IsOpaque(e)
    ensures e.ParseError? ==> r.body == ValidationErrorBody(ErrorFields(e.path))
    ensures e.UserAlreadyExistsError? ==> r.body == ErrorBody("UserAlreadyExists")
    ensures IsOpaque(e) ==> r == InternalServerError
  {
    match e
    case ParseError(path) => Response(400, ValidationErrorBody(ErrorFields(path)))
    case UserAlreadyExistsError(_) => Response(400, ErrorBody("UserAlreadyExists"))
    case _ => InternalServerError
  }

  /** The failure switch of POST /auth/verify-authentication: only an unknown
      credential is the client's fault. */
  function AuthenticationFailure(e: Error): (r: Response)
    requires e.AuthenticatorNotFoundError? || IsOpaque(e)
    ensures r.status == 400 <==> e.AuthenticatorNotFoundError?
    ensures r.status == 400 ==> r.body == ErrorBody("InvalidRequest")
    ensures r.status != 400 ==> r == InternalServerError
  {
    if e.AuthenticatorNotFoundError? then Response(400, ErrorBody("InvalidRequest")) else InternalServerError
  }

  class App {
    const config: Config
    const db: UserTable
    var session: Session

    constructor (config: Config, db: UserTable, session: Session)
      ensures this.config == config && this.db == db && this.session == session
    {
      this.config := config;
      this.db := db;
      this.session := session;
    }

    /** GET /auth/session. */
    method CheckSession(dbFails: bool) returns (resp: Response)
      ensures DecodeLoggedInSession(session).Failure? ==> resp == Response(200, SessionBody(false, None))
      ensures DecodeLoggedInSession(session).Success? ==>
        var found := GetUser(db.items, DecodeLoggedInSession(session).value, dbFails);
        && (found.Success? && found.value.Some? ==>
              resp == Response(200, SessionBody(true, Some(PublicUser(found.value.value.userName)))))
        && (found == Success(None) ==> resp == Response(400, SessionBody(false, None)))
        && (found.Failure? ==> resp == InternalServerError)
    {
      var decoded := DecodeLoggedInSession(session);
      if decoded.Failure? {
        return SessionFailure(decoded.error);
      }
      var status := CheckUserWorkflow(UserLookup(db.items, dbFails), decoded.value);
      if status.Failure? {
        return SessionFailure(status.error);
      }
      resp := Response(200, SessionBody(status.value.isLoggedIn, Some(status.value.user)));
    }

    /** POST /auth/logout. */
    method Logout() returns (resp: Response)
      modifies this
      ensures session == map[]
      ensures resp == Response(200, LogoutBody(true))
    {
      session := map[];
      resp := Response(200, LogoutBody(true));
    }

    /** POST /auth/generate-registration-options: on success the session
        remembers the new user ID, the challenge and the name until the
        registration is verified. */
    method GenerateRegistrationOptions(body: Option<Value>, generate: RegistrationOptionsGenerator, uuid: string, dbFails: bool)
      returns (resp: Response)
      modifies this
      ensures body.None? ==> resp == InternalServerError && session == old(session)
      ensures body.Some? && DecodeRegistrationOptionsBody(body.value).Failure? ==>
        && resp == Response(400, ValidationErrorBody(ErrorFields(DecodeRegistrationOptionsBody(body.value).error.path)))
        && session == old(session)
      ensures body.Some? && DecodeRegistrationOptionsBody(body.value).Success? ==>
        var w := GenerateRegistrationOptionsWorkflow(
          config, UserIDByUserName(db.items, dbFails), generate, DecodeRegistrationOptionsBody(body.value).value, uuid);
        && (w.Success? ==>
              && resp == Response(200, CreationOptionsBody(w.value.options))
              && session == old(session)["userID" := Str(w.value.userID)]
                                        ["challenge" := Str(w.value.options.challenge)]
                                        ["userName" := Str(w.value.options.userName)])
        && (w.Failure? ==> resp == RegistrationOptionsFailure(w.error) && session == old(session))
    {
      if body.None? {
        return InternalServerError;
      }
      var decoded := DecodeRegistrationOptionsBody(body.value);
      if decoded.Failure? {
        return RegistrationOptionsFailure(decoded.error);
      }
      var w := GenerateRegistrationOptionsWorkflow(config, UserIDByUserName(db.items, dbFails), generate, decoded.value, uuid);
      if w.Failure? {
        return RegistrationOptionsFailure(w.error);
      }
      session := session["userID" := Str(w.value.userID)];
      session := session["challenge" := Str(w.value.options.challenge)];
      session := session["userName" := Str(w.value.options.userName)];
      resp := Response(200, CreationOptionsBody(w.value.options));
    }

    /** POST /auth/verify-registration: the user ID, name and challenge come from
        the session; on success the user is stored and logged in and the
        challenge is spent. Every failure is a server error and changes
        neither the session nor the table. */
    method VerifyRegistration(body: Option<RegistrationResponseJSON>, verify: RegistrationVerifier, now: int, dbFails: bool)
      returns (resp: Response)
      modifies this, db
      ensures resp.status == 200 || resp == InternalServerError
      ensures resp.status != 200 ==> session == old(session) && db.items == old(db.items)
      ensures resp.status == 200 <==>
        && body.Some?
        && DecodeUserID(Get(old(session), "userID")).Success?
        && DecodeUserName(Get(old(session), "userName")).Success?
        && var a := VerifyRegistrationAttempt(
             config, verify, body.value, Get(old(session), "challenge"),
             DecodeUserID(Get(old(session), "userID")).value, DecodeUserName(Get(old(session), "userName")).value);
        && a.Success?
        && !dbFails
        && CanCreate(old(db.items), a.value.user)
      ensures resp.status == 200 ==>
        var u := DecodeUserID(Get(old(session), "userID")).value;
        var a := VerifyRegistrationAttempt(
          config, verify, body.value, Get(old(session), "challenge"), u, DecodeUserName(Get(old(session), "userName")).value);
        && resp.body == VerifiedBody(a.value.verified)
        && db.items == WithNewUser(old(db.items), a.value.user, now)
        && session == old(session)["challenge" := Undefined]["isLoggedIn" := Bool(true)]["userID" := Str(u)]
    {
      if body.None? {
        return InternalServerError;
      }
      var userID := DecodeUserID(Get(session, "userID"));
      if userID.Failure? {
        return InternalServerError;
      }
      var userName := DecodeUserName(Get(session, "userName"));
      if userName.Failure? {
        return InternalServerError;
      }
      var w := VerifyRegistrationOptionsWorkflow(
        db, config, verify, body.value, userID.value, userName.value, Get(session, "challenge"), now, dbFails);
      if w.Failure? {
        return InternalServerError;
      }
      session := session["challenge" := Undefined];
      session := session["isLoggedIn" := Bool(true)];
      session := session["userID" := Str(w.value.userID)];
      resp := Response(200, VerifiedBody(w.value.verified));
    }

    /** POST /auth/generate-authentication-options: on success only the
        challenge in the session changes. */
    method GenerateAuthenticationOptions(generate: AuthenticationOptionsGenerator) returns (resp: Response)
      modifies this
      ensures var w := GenerateAuthenticationOptionsWorkflow(config, generate);
        && (w.Success? ==>
              && resp == Response(200, RequestOptionsBody(w.value))
              && session == old(session)["challenge" := Str(w.value.challenge)])
        && (w.Failure? ==> resp == InternalServerError && session == old(session))
    {
      var w := GenerateAuthenticationOptionsWorkflow(config, generate);
      if w.Failure? {
        return InternalServerError;
      }
      session := session["challenge" := Str(w.value.challenge)];
      resp := Response(200, RequestOptionsBody(w.value));
    }

    /** POST /auth/verify-authentication: on success the session is logged in
        as the user the handle names. The challenge stays in the session and
        the table is not written: the signature counter is never updated. */
    method VerifyAuthentication(body: Option<AuthenticationResponseJSON>, verify: AuthenticationVerifier, dbFails: bool)
      returns (resp: Response)
      modifies this
      ensures body.None? ==> resp == InternalServerError && session == old(session)
      ensures body.Some? ==>
        var w := VerifyAuthenticationWorkflow(
          config, DeviceLookup(db.items, dbFails), verify, body.value, Get(old(session), "challenge"));
        && (w.Success? ==>
              && resp == Response(200, VerifiedBody(w.value.verified))
              && session == old(session)["isLoggedIn" := Bool(true)]["userID" := Str(w.value.userID)])
        && (w.Failure? ==> resp == AuthenticationFailure(w.error) && session == old(session))
      ensures Get(session, "challenge") == Get(old(session), "challenge")
    {
      if body.None? {
        return InternalServerError;
      }
      var w := VerifyAuthenticationWorkflow(
        config, DeviceLookup(db.items, dbFails), verify, body.value, Get(session, "challenge"));
      if w.Failure? {
        return AuthenticationFailure(w.error);
      }
      session := session["isLoggedIn" := Bool(true)];
      session := session["userID" := Str(w.value.userID)];
      resp := Response(200, VerifiedBody(w.value.verified));
    }
  }
}
