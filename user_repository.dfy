/** packages/blog-api/src/repos/user-repository.ts. A failure of the DynamoDB
    client is the parameter `fails`; the clock is the parameter `now`. */
module UserRepository {
  import opened Wrappers
  import opened Values
  import opened Errors
  import opened User
  import Base64
  import opened SingleTable

  datatype UserRecord = UserRecord(userID: UserID, userName: UserName)

  /** `getUserIDByUserName(client)(userName)`: query the name index; no item is
      "no user", one item yields its validated `userID`, more than one is a data
      integrity error. */
  function GetUserIDByUserName(t: Table, userName: UserName, fails: bool): (r: Result<Option<UserID>, Error>)
    ensures r.Failure? ==> r.error.DataBaseUnknownError?
    ensures fails ==> r == Failure(DataBaseUnknownError(ClientFailure))
    ensures !fails ==> (r == Success(None) <==> ItemsNamed(t, userName) == {})
    ensures !fails && |ItemsNamed(t, userName)| == 1 ==>
      forall k | k in ItemsNamed(t, userName) ::
        && (r.Success? <==> Get(t[k], "userID").Str? && IsUuidV4(Get(t[k], "userID").s))
        && (r.Success? ==> r.value == Some(Get(t[k], "userID").s))
    ensures !fails && |ItemsNamed(t, userName)| > 1 ==>
      r == Failure(DataBaseUnknownError(Message("invalidUserDataUser")))
  {
    if fails then Failure(DataBaseUnknownError(ClientFailure))
    else
      var found := ItemsNamed(t, userName);
      if |found| == 0 then Success(None)
      else if |found| == 1 then
        var k := TheOnly(found);
        match DecodeUserID(Get(t[k], "userID"))
        case Success(u) => Success(Some(u))
        case Failure(e) => Failure(DataBaseUnknownError(Caused(e)))
      else Failure(DataBaseUnknownError(Message("invalidUserDataUser")))
  }

  /** The element of a one-element set. */
  function TheOnly<T>(s: set<T>): (x: T)
    requires |s| == 1
    ensures s == {x}
  {
    var x :| x in s;
    assert |s - {x}| == 0;
    x
  }

  /** The injected form `getUserIDByUserName(client)`. */
  function UserIDByUserName(t: Table, fails: bool): UserName -> Result<Option<UserID>, Error> {
    (n: UserName) => GetUserIDByUserName(t, n, fails)
  }

  /** `getUser(client)(userID)`: read exactly the item keyed `(userID, userID)`
      and validate its `userID` and `userName` attributes. Every error, the
      client's included, is wrapped once more in a DataBaseUnknownError. */
  function GetUser(t: Table, userID: UserID, fails: bool): (r: Result<Option<UserRecord>, Error>)
    ensures r.Failure? ==> r.error.DataBaseUnknownError?
    ensures fails ==> r.Failure?
    ensures !fails ==> (r == Success(None) <==> Key(userID, userID) !in t)
    ensures !fails && Key(userID, userID) in t ==>
      var item := t[Key(userID, userID)];
      r.Success? <==> DecodeUserID(Get(item, "userID")).Success? && DecodeUserName(Get(item, "userName")).Success?
    ensures r.Success? && r.value.Some? ==>
      && Key(userID, userID) in t
      && Get(t[Key(userID, userID)], "userID") == Str(r.value.value.userID)
      && Get(t[Key(userID, userID)], "userName") == Str(r.value.value.userName)
  {
    if fails then Failure(DataBaseUnknownError(Caused(DataBaseUnknownError(ClientFailure))))
    else if Key(userID, userID) !in t then Success(None)
    else
      var item := t[Key(userID, userID)];
      match DecodeUserID(Get(item, "userID"))
      case Failure(e) => Failure(DataBaseUnknownError(Caused(e)))
      case Success(u) =>
        match DecodeUserName(Get(item, "userName"))
        case Failure(e) => Failure(DataBaseUnknownError(Caused(e)))
        case Success(n) => Success(Some(UserRecord(u, n)))
  }

  /** The injected form `getUser(client)`. */
  function UserLookup(t: Table, fails: bool): UserID -> Result<Option<UserRecord>, Error> {
    (u: UserID) => GetUser(t, u, fails)
  }

  /** The parameters of `createUser`. */
  datatype NewUser = NewUser(
    userID: UserID,
    userName: UserName,
    credentialID: string,
    credentialPublicKey: seq<byte>,
    transports: seq<string>)

  function UserKey(p: NewUser): Key {
    Key(p.userID, p.userID)
  }

  function CredentialKey(p: NewUser): Key {
    Key(p.userID, p.credentialID)
  }

  function UserItem(p: NewUser, now: int): Item {
    map[
      "userID" := Str(p.userID),
      "ID" := Str(p.userID),
      "userName" := Str(p.userName),
      "createdAt" := Num(now),
      "updatedAt" := Num(now)]
  }

  /** The credential item: the public key is stored base64-encoded, the counter
      starts at 0. A `Uint8Array` is always truthy, so every key is encoded. */
  function CredentialItem(p: NewUser, now: int): Item {
    map[
      "userID" := Str(p.userID),
      "ID" := Str(p.credentialID),
      "credentialPublicKey" := Str(Base64.Encode(p.credentialPublicKey)),
      "counter" := Num(0),
      "transports" := Strings(p.transports),
      "createdAt" := Num(now),
      "updatedAt" := Num(now)]
  }

  /** The transaction commits: the condition
      `attribute_not_exists(userID) AND attribute_not_exists(ID)` holds for both
      puts, the two puts address different items (DynamoDB cancels a
      transaction that writes one item twice), and the credential ID is not
      empty (DynamoDB refuses an empty string as a key attribute). */
  predicate CanCreate(t: Table, p: NewUser) {
    && p.credentialID != ""
    && UserKey(p) != CredentialKey(p) && UserKey(p) !in t && CredentialKey(p) !in t
  }

  /** The table after a committed `createUser`. */
  function WithNewUser(t: Table, p: NewUser, now: int): (r: Table)
    ensures r.Keys == t.Keys + {UserKey(p), CredentialKey(p)}
    ensures UserKey(p) != CredentialKey(p) ==> r[UserKey(p)] == UserItem(p, now)
    ensures r[CredentialKey(p)] == CredentialItem(p, now)
    ensures forall k | k in t && k != UserKey(p) && k != CredentialKey(p) :: r[k] == t[k]
    ensures WellKeyed(t) ==> WellKeyed(r)
  {
    t[UserKey(p) := UserItem(p, now)][CredentialKey(p) := CredentialItem(p, now)]
  }

  /** The table as the DynamoDB client sees it. */
  class UserTable {
    var items: Table

    constructor (initial: Table)
      ensures items == initial
    {
      items := initial;
    }

    /** `createUser(client)(params)`: one transactional write of the user item and
        the credential item, all or nothing. */
    method CreateUser(p: NewUser, now: int, fails: bool) returns (r: Result<(), Error>)
      modifies this
      ensures r.Success? <==> !fails && CanCreate(old(items), p)
      ensures r.Success? ==> items == WithNewUser(old(items), p, now)
      ensures r.Failure? ==> items == old(items) && r.error == DataBaseUnknownError(ClientFailure)
    {
      var userItem := UserItem(p, now);
      var credentialItem := CredentialItem(p, now);
      if fails || p.credentialID == "" || UserKey(p) == CredentialKey(p) || UserKey(p) in items || CredentialKey(p) in items {
        return Failure(DataBaseUnknownError(ClientFailure));
      }
      items := items[UserKey(p) := userItem];
      items := items[CredentialKey(p) := credentialItem];
      r := Success(());
    }
  }

  /** After a committed `createUser`, `getUser` finds the new user under its ID. */
  lemma GetUserAfterCreate(t: Table, p: NewUser, now: int)
    requires CanCreate(t, p)
    ensures GetUser(WithNewUser(t, p, now), p.userID, false) == Success(Some(UserRecord(p.userID, p.userName)))
  {
  }

  /** After a committed `createUser` for a name no item had, the name index
      yields the new user's ID. */
  lemma NameLookupAfterCreate(t: Table, p: NewUser, now: int)
    requires CanCreate(t, p) && ItemsNamed(t, p.userName) == {}
    ensures GetUserIDByUserName(WithNewUser(t, p, now), p.userName, false) == Success(Some(p.userID))
  {
    var r := WithNewUser(t, p, now);
    OnlyNewUserNamed(t, p, now);
    assert r[UserKey(p)] == UserItem(p, now);
    UserIDCharacterisation(p.userID);
  }

  /** A name no item had is, after the commit, held by the new user item alone. */
  lemma OnlyNewUserNamed(t: Table, p: NewUser, now: int)
    requires CanCreate(t, p) && ItemsNamed(t, p.userName) == {}
    ensures ItemsNamed(WithNewUser(t, p, now), p.userName) == {UserKey(p)}
  {
    var r := WithNewUser(t, p, now);
    forall k | k in r
      ensures Get(r[k], "userName") == Str(p.userName) <==> k == UserKey(p)
    {
      if k == CredentialKey(p) {
        assert r[k] == CredentialItem(p, now);
      } else if k == UserKey(p) {
        assert r[k] == UserItem(p, now);
      } else {
        assert k !in ItemsNamed(t, p.userName);
      }
    }
  }

  /** In a table whose items carry their own keys, a name held by exactly one
      item with a valid partition key yields that key's user ID. */
  lemma NameLookupYieldsOwner(t: Table, name: UserName, k: Key)
    requires WellKeyed(t) && ItemsNamed(t, name) == {k} && IsUuidV4(k.userID)
    ensures GetUserIDByUserName(t, name, false) == Success(Some(k.userID))
  {
  }

  /** Both new items carry the same timestamp, and the counter starts at 0. */
  lemma CreatedTogether(t: Table, p: NewUser, now: int)
    requires CanCreate(t, p)
    ensures var r := WithNewUser(t, p, now);
      && Get(r[UserKey(p)], "createdAt") == Get(r[UserKey(p)], "updatedAt") == Num(now)
      && Get(r[CredentialKey(p)], "createdAt") == Get(r[CredentialKey(p)], "updatedAt") == Num(now)
      && Get(r[CredentialKey(p)], "counter") == Num(0)
  {
  }

  /** Of two registrations under one user ID, only the first commits: the
      second one's user item already exists. */
  lemma SecondCreateForSameUserRefused(t: Table, p1: NewUser, p2: NewUser, now: int)
    requires p1.userID == p2.userID
    ensures !CanCreate(WithNewUser(t, p1, now), p2)
  {
  }

  /** The transaction's conditions are on keys only: two registrations of one
      name under different user IDs both commit, after which every lookup of
      that name fails as a data integrity error. */
  lemma DuplicateNameAfterTwoCreates(t: Table, p1: NewUser, p2: NewUser, now1: int, now2: int)
    requires p1.userName == p2.userName && p1.userID != p2.userID
    requires ItemsNamed(t, p1.userName) == {}
    requires CanCreate(t, p1) && CanCreate(t, p2)
    ensures CanCreate(WithNewUser(t, p1, now1), p2)
    ensures GetUserIDByUserName(WithNewUser(WithNewUser(t, p1, now1), p2, now2), p1.userName, false)
         == Failure(DataBaseUnknownError(Message("invalidUserDataUser")))
  {
    var t1 := WithNewUser(t, p1, now1);
    var t2 := WithNewUser(t1, p2, now2);
    NewUserNamed(t, p1, now1);
    StillNamed(t1, p2, now2, UserKey(p1), p1.userName);
    NewUserNamed(t1, p2, now2);
    TwoNamed(t2, UserKey(p1), UserKey(p2), p1.userName);
  }

  /** The new user item is found under its name. */
  lemma NewUserNamed(t: Table, p: NewUser, now: int)
    ensures UserKey(p) in WithNewUser(t, p, now)
    ensures UserKey(p) != CredentialKey(p) ==> UserKey(p) in ItemsNamed(WithNewUser(t, p, now), p.userName)
  {
    if UserKey(p) != CredentialKey(p) {
      assert WithNewUser(t, p, now)[UserKey(p)] == UserItem(p, now);
    }
  }

  /** Two items under one name make the index hold more than one item. */
  lemma TwoNamed(t: Table, a: Key, b: Key, name: string)
    requires a != b && a in ItemsNamed(t, name) && b in ItemsNamed(t, name)
    ensures |ItemsNamed(t, name)| > 1
  {
    assert |{a, b}| == 2;
    SubsetSize({a, b}, ItemsNamed(t, name));
  }

  /** A named item other than the new user's credential item keeps its name. */
  lemma StillNamed(t: Table, p: NewUser, now: int, k: Key, name: string)
    requires k in t && Get(t[k], "userName") == Str(name) && k != UserKey(p) && k != CredentialKey(p)
    ensures k in ItemsNamed(WithNewUser(t, p, now), name)
  {
  }

  lemma SubsetSize<T>(a: set<T>, b: set<T>)
    requires a <= b
    ensures |a| <= |b|
  {
    assert b == a + (b - a);
  }
}
