/** The `${envName}-User` DynamoDB table both repositories address: user items
    and credential items share it, keyed by partition key `userID` and sort key
    `ID` (the user ID again for a user item, the credential ID for a credential
    item). The client and its transport are not modelled; the table is a map. */
module SingleTable {
  import opened Values

  datatype Key = Key(userID: string, id: string)

  type Item = map<string, Value>

  type Table = map<Key, Item>

  /** Every item carries its own key as its `userID` and `ID` attributes. */
  predicate WellKeyed(t: Table) {
    forall k | k in t :: Get(t[k], "userID") == Str(k.userID) && Get(t[k], "ID") == Str(k.id)
  }

  /** The items the `userNameIndex` global secondary index holds for `name`. */
  function ItemsNamed(t: Table, name: string): set<Key> {
    set k | k in t && Get(t[k], "userName") == Str(name)
  }
}
