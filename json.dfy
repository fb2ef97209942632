/** The values held by the artifact list and the stores: what a JSON document
    decodes to, with the parts of Python's object protocol the page relies on
    (truth value, `dict.get`, the `or` operator). */
module Json {

  /** A decoded JSON value. Strings and objects are kept structurally, since
      the page reads into them; every other JSON value (a number, a boolean,
      an array) is kept as the text Python's `str()` gives it together with its
      truth value. */
  datatype Value =
    | Text(s: string)
    | Dict(fields: map<string, Value>)
    | Null
    | Other(shown: string, truthy: bool)

  /** Python's truth value: empty strings, empty dicts and None are false. */
  predicate Truthy(v: Value) {
    match v
    case Text(s) => s != []
    case Dict(m) => |m| != 0
    case Null => false
    case Other(_, t) => t
  }

  /** `d.get(key, default)` on a dict. */
  function Get(d: map<string, Value>, key: string, default: Value): Value {
    if key in d then d[key] else default
  }

  /** Python's `a or b`: `a` when it is true, `b` otherwise. */
  function Or(a: Value, b: Value): (r: Value)
    ensures Truthy(r) <==> Truthy(a) || Truthy(b)
    ensures Truthy(a) ==> r == a
    ensures !Truthy(a) ==> r == b
  {
    if Truthy(a) then a else b
  }
}
