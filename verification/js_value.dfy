/** JavaScript values as they reach the store layer: documents read from the
    local database, change events, errors and registered callbacks.

    Only the parts of JavaScript's semantics the store layer relies on are
    written out: truthiness, own-property reads, strict equality with `true`
    and abstract equality with `true`. */
module JsValue {

  /** Presence or absence of an optional part (a payload, a post-processing
      function, an optional argument). */
  datatype Option<+T> = None | Some(value: T)

  /** A JavaScript value. Numbers are integers (floating point, NaN and -0 are
      not modelled) and a function is known only by an identity. */
  datatype Value =
    | Undefined
    | Null
    | Bool(b: bool)
    | Num(n: int)
    | Str(s: string)
    | Arr(items: seq<Value>)
    | Obj(fields: map<string, Value>)
    | Fn(id: nat)

  /** The own properties of a plain object: a document, a state mapping. */
  type Fields = map<string, Value>

  /** JavaScript truthiness, as tested by `if (v)`, `v && ...` and `!v`.
      Objects, arrays (even empty ones) and functions are truthy. */
  predicate Truthy(v: Value)
  {
    match v
    case Undefined => false
    case Null => false
    case Bool(b) => b
    case Num(n) => n != 0
    case Str(s) => s != ""
    case Arr(_) => true
    case Obj(_) => true
    case Fn(_) => true
  }

  /** `v === undefined || v === null`: reading a property of such a value
      throws a TypeError. */
  predicate Nullish(v: Value)
  {
    v.Undefined? || v.Null?
  }

  /** The property read `v[key]` on a value that is not nullish. A missing
      property, and any property of a primitive, reads as `undefined`. */
  function Get(v: Value, key: string): Value
  {
    if v.Obj? && key in v.fields then v.fields[key] else Undefined
  }

  /** `v === true` */
  predicate IsTrue(v: Value)
  {
    v == Bool(true)
  }

  /** `v == true`: abstract equality with a boolean converts both sides to
      numbers, so it holds of `true`, of the number 1 and of the string "1". */
  predicate LooselyTrue(v: Value)
  {
    match v
    case Bool(b) => b
    case Num(n) => n == 1
    case Str(s) => s == "1"
    case _ => false
  }
}
