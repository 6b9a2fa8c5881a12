/** JSON values as the purchase-order handlers see them, with Python's
    truthiness test and `dict.get`. */
module Values {

  datatype Option<+T> = None | Some(value: T)

  /** A decoded JSON scalar. Arrays and objects never reach the checks of
      this model, so they are not represented. */
  datatype Value = Null | Bool(b: bool) | Num(r: real) | Str(s: string)

  /** A decoded JSON object: a request body or an orchestration input. */
  type Request = map<string, Value>

  /** `d.get(k)`: the value stored under `k`, or `None` when there is none. */
  function Get(d: Request, k: string): Value
  {
    if k in d then d[k] else Null
  }

  /** Python's `bool(v)`: `None`, `False`, `0` and `""` are falsy. */
  predicate Truthy(v: Value)
  {
    match v
    case Null => false
    case Bool(b) => b
    case Num(r) => r != 0.0
    case Str(s) => s != ""
  }

  /** `not d.get(k)` is false: the field is present and truthy. */
  predicate Present(d: Request, k: string)
  {
    Truthy(Get(d, k))
  }

  /** A field that is absent, or present with a falsy value, fails `Present`. */
  lemma MissingMeansAbsentOrFalsy(d: Request, k: string)
    ensures !Present(d, k) <==> (k !in d || d[k] in {Null, Bool(false), Num(0.0), Str("")})
  {
  }
}
