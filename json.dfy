/** JSON-like values: the claims of a decoded token payload (a claims set in the
    sense of section 4 of RFC 7519) and keyword-argument dictionaries. */
module Json {

  import Common

  datatype JValue =
    | JNull
    | JBool(b: bool)
    | JNum(n: int)
    | JStr(s: string)
    | JList(items: seq<JValue>)
    | JObj(fields: map<string, JValue>)

  type Object = map<string, JValue>

  /** Python truthiness: `None`, `False`, `0`, `''`, `[]` and `{}` are falsy. */
  predicate Truthy(v: JValue)
  {
    match v
    case JNull => false
    case JBool(b) => b
    case JNum(n) => n != 0
    case JStr(s) => s != ""
    case JList(items) => items != []
    case JObj(fields) => fields != map[]
  }

  /** `d.get(k)`: the value under `k`, or `None` when the key is missing. */
  function Get(d: Object, k: string): (r: JValue)
    ensures k !in d ==> r == JNull
    ensures k in d ==> r == d[k]
  {
    if k in d then d[k] else JNull
  }

  /** Python's `a or b`: `a` when it is truthy, otherwise `b`. */
  function Or(a: JValue, b: JValue): (r: JValue)
    ensures Truthy(a) ==> r == a
    ensures !Truthy(a) ==> r == b
  {
    if Truthy(a) then a else b
  }

  /** `str(v).lower() == 'admin'`. `str` renders `None`, booleans and numbers
      as `None`, `True`/`False` and digits, and a list or dict with its
      brackets, so only a string can lower-case to "admin". */
  predicate StrIsAdmin(v: JValue)
  {
    v.JStr? && Common.IsAdminName(v.s)
  }

  /** `any(str(r).lower() == 'admin' for r in items)`. */
  function AnyAdmin(items: seq<JValue>): (r: bool)
    ensures r <==> exists i :: 0 <= i < |items| && StrIsAdmin(items[i])
  {
    if items == [] then false
    else StrIsAdmin(items[0]) || AnyAdmin(items[1..])
  }
}
