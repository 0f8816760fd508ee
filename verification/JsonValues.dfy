/** JSON values as the DSpace client hands them over, and the hash taken of them. */
module JsonValues {

  datatype Option<+T> = None | Some(value: T) {
    function GetOr(default: T): T {
      match this
      case Some(v) => v
      case None => default
    }
  }

  datatype Result<+T, +E> = Ok(value: T) | Err(error: E)

  datatype Json =
    | Null
    | Bool(flag: bool)
    | Num(number: int)
    | Str(text: string)
    | Arr(items: seq<Json>)
    | Obj(members: map<string, Json>)

  /** `value.get(key)` on a dictionary; a missing key and a non-dictionary both give null. */
  function Get(j: Json, key: string): Json {
    if j.Obj? && key in j.members then j.members[key] else Null
  }

  /** `isinstance(value, str) and value`. */
  predicate IsText(j: Json) {
    j.Str? && j.text != ""
  }

  /** Python's truth value of a JSON value. */
  predicate Truthy(j: Json) {
    match j
    case Null => false
    case Bool(flag) => flag
    case Num(number) => number != 0
    case Str(text) => text != ""
    case Arr(items) => items != []
    case Obj(members) => members != map[]
  }

  /** `a or b`. */
  function OrElse(a: Json, b: Json): Json {
    if Truthy(a) then a else b
  }

  /** `isinstance(value, int)`, which also takes booleans. */
  function AsInt(j: Json): Option<int> {
    match j
    case Num(number) => Some(number)
    case Bool(flag) => Some(if flag then 1 else 0)
    case _ => None
  }

  function Digit(n: nat): char
    requires n < 10
  {
    "0123456789"[n]
  }

  /** Decimal text of a natural number. */
  function NatText(n: nat): string {
    if n < 10 then [Digit(n)] else NatText(n / 10) + [Digit(n % 10)]
  }

  /** `str(value)` of a scalar; lists and objects, which the repository never names things by, are not told apart. */
  function Render(j: Json): string {
    match j
    case Null => "None"
    case Bool(flag) => if flag then "True" else "False"
    case Num(number) => if number < 0 then "-" + NatText(-number) else NatText(number)
    case Str(text) => text
    case Arr(_) => "[]"
    case Obj(_) => "{}"
  }

  /** SHA-256 of the canonical encoding, taken as an injective function of the value. */
  datatype Digest<T> = Sha256(preimage: T)
}
