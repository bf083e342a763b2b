/** The JavaScript values that an ORM instance holds in its attribute dictionary,
    and the few operations of the language the models rely on: property read,
    truthiness and the array test. */
module JsValue {

  datatype Option<+T> = None | Some(value: T)

  /** A JavaScript value as stored in an instance's attributes. Numbers are the
      integers the INTEGER columns hold; a DATE column holds a millisecond time. */
  datatype Value =
    | Undefined
    | Null
    | Bool(b: bool)
    | Num(n: int)
    | Str(s: string)
    | Date(ms: int)
    | Arr(items: seq<Value>)
    | Obj(fields: map<string, Value>)

  /** The attribute dictionary of an instance (its data values). */
  type Record = map<string, Value>

  /** Reading an attribute: a missing key reads as `undefined`. */
  function Get(values: Record, key: string): (v: Value)
    ensures key !in values ==> v == Undefined
    ensures key in values ==> v == values[key]
  {
    if key in values then values[key] else Undefined
  }

  /** `null` and `undefined`, the two values a NOT NULL column refuses. */
  predicate IsNullish(v: Value) {
    v == Null || v == Undefined
  }

  /** JavaScript truthiness (NaN is not a value of this model). */
  predicate Truthy(v: Value) {
    match v
    case Undefined => false
    case Null => false
    case Bool(b) => b
    case Num(n) => n != 0
    case Str(s) => s != ""
    case Date(_) => true
    case Arr(_) => true
    case Obj(_) => true
  }

  /** Reading a property of a value that is not `null` or `undefined`: only an object has
      named properties here (strings, numbers, dates and arrays have no property
      with the names the models read). */
  function Prop(v: Value, key: string): (p: Value)
    ensures !v.Obj? ==> p == Undefined
  {
    match v
    case Obj(fields) => Get(fields, key)
    case _ => Undefined
  }

  /** The array test of the utility library: true only of arrays. */
  predicate IsArray(v: Value) {
    v.Arr?
  }
}
