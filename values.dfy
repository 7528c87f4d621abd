/** JavaScript values of unknown shape: what `session.get`, a parsed JSON body
    and a DynamoDB item attribute hand to the code before it validates them. */
module Values {

  /** An `unknown` value. Numbers are the integers the code stores (timestamps,
      counters); absent properties read as `Undefined`. */
  datatype Value =
    | Undefined
    | Null
    | Bool(b: bool)
    | Num(n: int)
    | Str(s: string)
    | List(items: seq<Value>)
    | Obj(fields: map<string, Value>)

  /** Property access `o[k]` on a record: `undefined` when the key is absent. */
  function Get(m: map<string, Value>, k: string): Value {
    if k in m then m[k] else Undefined
  }

  /** JavaScript truthiness, as used by `x ? a : b` and `!x`. */
  predicate Truthy(v: Value) {
    match v
    case Undefined => false
    case Null => false
    case Bool(b) => b
    case Num(n) => n != 0
    case Str(s) => s != ""
    case List(_) => true
    case Obj(_) => true
  }

  /** A string array as a JavaScript value. */
  function Strings(ss: seq<string>): Value {
    List(seq(|ss|, i requires 0 <= i < |ss| => Str(ss[i])))
  }

  /** An element of a `Uint8Array`/`Buffer`. */
  type byte = x: int | 0 <= x < 256

  predicate IsAscii(s: string) {
    forall i | 0 <= i < |s| :: s[i] as int < 128
  }
}
