/** Values as they arrive in a JSON request body and as the document store
    keeps them, plus the few Python behaviours on them that the handlers rely
    on: `dict.get`, truthiness and `str.lower`. */
module Documents {

  datatype Option<+T> = None | Some(value: T)

  /** A JSON value. A nested object keeps its keys in the order they were
      written, because iterating it (as `for field in ...` does) yields them
      in that order. */
  datatype Value =
    | Null
    | Bool(b: bool)
    | Int(i: int)
    | Str(s: string)
    | List(items: seq<Value>)
    | Object(entries: seq<(string, Value)>)

  /** A request body, a stored document or a session entry: a string-keyed dictionary. */
  type Doc = map<string, Value>

  /** The Python exceptions a handler can raise; Flask answers each with a 500. */
  datatype Exception =
    | KeyError          // `d[key]` on a missing key
    | TypeError         // subscripting None, `len` or iteration of a scalar
    | AttributeError    // `.get` on None
    | InvalidId         // `ObjectId(s)` of a malformed string
    | OperationFailure  // the document store rejects the query

  datatype Result<+T> = Ok(value: T) | Err(error: Exception)

  /** `d.get(key)`: None when the key is absent. */
  function Get(d: Doc, key: string): Value
  {
    if key in d then d[key] else Null
  }

  /** Python truthiness of a JSON value. */
  predicate Truthy(v: Value)
  {
    match v
    case Null => false
    case Bool(b) => b
    case Int(i) => i != 0
    case Str(s) => s != ""
    case List(xs) => xs != []
    case Object(es) => es != []
  }

  /** `session.get("user")` is truthy: a user is stored and the dictionary is not empty. */
  predicate SignedIn(user: Option<Doc>)
  {
    user.Some? && user.value != map[]
  }

  function LowerChar(c: char): char
  {
    if 'A' <= c <= 'Z' then (c as int - 'A' as int + 'a' as int) as char else c
  }

  /** `s.lower()` on the ASCII letters. */
  function Lower(s: string): (r: string)
    ensures |r| == |s|
    ensures forall i :: 0 <= i < |r| ==> !('A' <= r[i] <= 'Z')
    ensures forall i :: 0 <= i < |r| && !('A' <= s[i] <= 'Z') ==> r[i] == s[i]
    ensures forall i :: 0 <= i < |r| && 'A' <= s[i] <= 'Z' ==> r[i] as int == s[i] as int + 32
  {
    seq(|s|, i requires 0 <= i < |s| => LowerChar(s[i]))
  }
}
