/** Properties of the passkey ceremonies as a whole: what one step leaves in
    the table and the session, and what a later step then makes of it. */
module Scenarios {
  import opened Wrappers
  import opened Values
  import opened Errors
  import opened User
  import Base64
  import Utf8
  import opened WebAuthn
  import opened SingleTable
  import opened UserRepository
  import opened AuthenticatorRepository
  import opened CheckSessionFlow
  import opened RegistrationOptionsFlow
  import opened VerifyAuthenticationFlow
  import opened Route

  /** After a committed registration, the session check knows the user under
      the registered name. */
  lemma RegisteredUserIsKnown(t: Table, p: NewUser, now: int)
    requires CanCreate(t, p)
    ensures CheckUserWorkflow(UserLookup(WithNewUser(t, p, now), false), p.userID)
         == Success(SessionStatus(true, PublicUser(p.userName)))
  {
  }

  /** After a committed registration under a fresh name, asking for
      registration options for that name again is refused. */
  lemma NameTakenAfterRegistration(
    config: Config, t: Table, p: NewUser, now: int, generate: RegistrationOptionsGenerator, uuid: string)
    requires CanCreate(t, p) && ItemsNamed(t, p.userName) == {}
    ensures GenerateRegistrationOptionsWorkflow(config, UserIDByUserName(WithNewUser(t, p, now), false), generate, p.userName, uuid)
         == Failure(UserAlreadyExistsError(p.userName))
  {
    NameLookupAfterCreate(t, p, now);
  }

  /** The assertion a client sends for a credential: its ID, the user handle
      as base64 (in either alphabet) of the user ID's UTF-8 bytes, and the
      challenge it signed. */
  function Assertion(credentialID: string, userID: UserID, url: bool, signed: string): AuthenticationResponseJSON {
    AuthenticationResponseJSON(credentialID, Some(Base64.EncodeWith(Utf8.Encode(userID), url)), signed)
  }

  /** An assertion by the registered credential, carrying the user handle the
      registration requested, reaches the library with the stored device, and
      logs in the registered user exactly when the library accepts it. */
  lemma RegisteredCredentialAuthenticates(
    config: Config, t: Table, p: NewUser, now: int, verify: AuthenticationVerifier,
    url: bool, signed: string, challenge: Value)
    requires CanCreate(t, p)
    ensures var response := Assertion(p.credentialID, p.userID, url, signed);
      var r := VerifyAuthenticationWorkflow(config, DeviceLookup(WithNewUser(t, p, now), false), verify, response, challenge);
      var res := verify(AuthenticationCheck(config, response, challenge, StoredDevice(p)));
      && (r.Success? <==> res.Some?)
      && (r.Success? ==> r.value == AuthenticationOutcome(p.userID, res.value.verified))
  {
    EncodedHandleDecodes(p.userID, url);
    DeviceAfterCreate(t, p, now);
  }

  /** A credential is looked up under the user its handle names: presenting a
      registered credential with another user's handle is refused as an
      unknown credential, whatever the library would say. */
  lemma CredentialBoundToItsUser(
    config: Config, t: Table, p: NewUser, now: int, u: UserID, verify: AuthenticationVerifier,
    url: bool, signed: string, challenge: Value)
    requires CanCreate(t, p)
    requires u != p.userID && Key(u, p.credentialID) !in t
    ensures VerifyAuthenticationWorkflow(
              config, DeviceLookup(WithNewUser(t, p, now), false), verify, Assertion(p.credentialID, u, url, signed), challenge)
         == Failure(AuthenticatorNotFoundError(p.credentialID))
  {
    EncodedHandleDecodes(u, url);
    assert Key(u, p.credentialID) !in WithNewUser(t, p, now);
  }

  /** A session that was never logged in, or was logged out, reads as
      "not logged in". */
  lemma EmptySessionNotLoggedIn()
    ensures DecodeLoggedInSession(map[]) == Failure(ParseError(["userID"]))
  {
  }

  /** Once logged out, the session check answers "not logged in" without
      consulting the table. */
  method LogoutThenCheck(app: App, dbFails: bool) returns (resp: Response)
    modifies app
    ensures app.session == map[]
    ensures resp == Response(200, SessionBody(false, None))
  {
    var _ := app.Logout();
    EmptySessionNotLoggedIn();
    resp := app.CheckSession(dbFails);
  }

  /** A verified registration logs the new user in: the session check that
      follows finds the user under the name the session held. */
  method RegistrationLogsIn(app: App, body: Option<RegistrationResponseJSON>, verify: RegistrationVerifier, now: int)
    returns (registered: Response, check: Response)
    modifies app, app.db
    ensures registered.status == 200 ==>
      && Get(old(app.session), "userName").Str?
      && check == Response(200, SessionBody(true, Some(PublicUser(Get(old(app.session), "userName").s))))
  {
    ghost var s0 := app.session;
    ghost var t0 := app.db.items;
    registered := app.VerifyRegistration(body, verify, now, false);
    if registered.status == 200 {
      var u := DecodeUserID(Get(s0, "userID")).value;
      var n := DecodeUserName(Get(s0, "userName")).value;
      var a := VerifyRegistrationFlow.VerifyRegistrationAttempt(config := app.config, verify := verify,
        response := body.value, challenge := Get(s0, "challenge"), userID := u, userName := n);
      GetUserAfterCreate(t0, a.value.user, now);
      assert DecodeLoggedInSession(app.session) == Success(u);
    }
    check := app.CheckSession(false);
  }
}
