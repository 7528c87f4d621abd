/** packages/blog-api/src/repos/authenticator-repository.ts. */
module AuthenticatorRepository {
  import opened Wrappers
  import opened Values
  import opened Errors
  import opened User
  import Base64
  import opened SingleTable
  import opened WebAuthn
  import opened UserRepository

  /** `result.Item.credentialPublicKey ? Buffer.from(…, 'base64') : undefined`.
      A falsy attribute (absent, or the empty string) gives no key; a string is
      decoded; a truthy non-string makes `Buffer.from` throw. */
  function DecodePublicKey(v: Value): (r: Result<Option<seq<byte>>, Error>)
    ensures !Truthy(v) ==> r == Success(None)
    ensures Truthy(v) && v.Str? ==>
      && (r.Success? <==> Base64.Decode(v.s).Some?)
      && (r.Success? ==> r.value == Some(Base64.Decode(v.s).value))
    ensures Truthy(v) && !v.Str? ==> r.Failure?
    ensures r.Failure? ==> r.error.DataBaseUnknownError?
  {
    if !Truthy(v) then Success(None)
    else if v.Str? then
      match Base64.Decode(v.s)
      case Some(bytes) => Success(Some(bytes))
      case None => Failure(DataBaseUnknownError(Thrown("invalid base64")))
    else Failure(DataBaseUnknownError(Thrown("TypeError")))
  }

  /** `getAuthenticatorDevice(client)(params)`: read the item keyed
      `(userID, credentialID)`; `ID`, `counter` and `transports` are passed on
      as stored. */
  function GetAuthenticatorDevice(t: Table, userID: UserID, credentialID: string, fails: bool)
    : (r: Result<Option<AuthenticatorDevice>, Error>)
    ensures r.Failure? ==> r.error.DataBaseUnknownError?
    ensures fails ==> r == Failure(DataBaseUnknownError(ClientFailure))
    ensures !fails ==> (r == Success(None) <==> Key(userID, credentialID) !in t)
    ensures !fails && Key(userID, credentialID) in t ==>
      (r.Success? <==> DecodePublicKey(Get(t[Key(userID, credentialID)], "credentialPublicKey")).Success?)
    ensures r.Success? && r.value.Some? ==>
      && Key(userID, credentialID) in t
      && var item := t[Key(userID, credentialID)];
      && r.value.value.credentialID == Get(item, "ID")
      && Success(r.value.value.credentialPublicKey) == DecodePublicKey(Get(item, "credentialPublicKey"))
      && r.value.value.counter == Get(item, "counter")
      && r.value.value.transports == Get(item, "transports")
  {
    if fails then Failure(DataBaseUnknownError(ClientFailure))
    else if Key(userID, credentialID) !in t then Success(None)
    else
      var item := t[Key(userID, credentialID)];
      var key :- DecodePublicKey(Get(item, "credentialPublicKey"));
      Success(Some(AuthenticatorDevice(Get(item, "ID"), key, Get(item, "counter"), Get(item, "transports"))))
  }

  /** The injected form `getAuthenticatorDevice(client)`. */
  function DeviceLookup(t: Table, fails: bool): (UserID, string) -> Result<Option<AuthenticatorDevice>, Error> {
    (u: UserID, c: string) => GetAuthenticatorDevice(t, u, c, fails)
  }

  /** The device a committed `createUser` stored: an empty public key is stored
      as the empty string, which reads back as no key at all. */
  function StoredDevice(p: NewUser): AuthenticatorDevice {
    AuthenticatorDevice(
      Str(p.credentialID),
      if |p.credentialPublicKey| == 0 then None else Some(p.credentialPublicKey),
      Num(0),
      Strings(p.transports))
  }

  /** The public key survives being stored: `createUser` encodes it and
      `getAuthenticatorDevice` decodes it back. */
  lemma {:induction false} StoredKeyRoundTrip(key: seq<byte>)
    ensures DecodePublicKey(Str(Base64.Encode(key))) == Success(if |key| == 0 then None else Some(key))
  {
    Base64.DecodeEncode(key, false);
  }

  /** After a committed `createUser`, the credential it stored is found with
      the registered ID, public key and transports and a zero counter. */
  lemma DeviceAfterCreate(t: Table, p: NewUser, now: int)
    requires CanCreate(t, p)
    ensures GetAuthenticatorDevice(WithNewUser(t, p, now), p.userID, p.credentialID, false) == Success(Some(StoredDevice(p)))
  {
    var r := WithNewUser(t, p, now);
    assert r[CredentialKey(p)] == CredentialItem(p, now);
    StoredKeyRoundTrip(p.credentialPublicKey);
  }

  /** The lookup does not tell credential items from user items: asked for the
      credential ID equal to the user ID, it reads the user item as a device
      with that ID, no public key and neither counter nor transports. */
  lemma UserItemReadAsDevice(t: Table, p: NewUser, now: int)
    requires CanCreate(t, p)
    ensures GetAuthenticatorDevice(WithNewUser(t, p, now), p.userID, p.userID, false)
         == Success(Some(AuthenticatorDevice(Str(p.userID), None, Undefined, Undefined)))
  {
    var r := WithNewUser(t, p, now);
    assert r[UserKey(p)] == UserItem(p, now);
  }
}
