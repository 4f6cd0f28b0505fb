/** Dynamic JavaScript values as the client sees them: the fields of a unit
    record received as JSON, and the mutable objects that hold them. */
module JsValues {

  /** A JavaScript value. Numbers are modelled as reals (NaN is not modelled);
      `Obj` and `Arr` are parsed JSON objects and arrays held by value; `Other`
      stands for any other value whose contents the model does not inspect. */
  datatype JsValue =
    | Undefined
    | Null
    | Bool(b: bool)
    | Num(n: real)
    | Str(s: string)
    | Obj(props: map<string, JsValue>)
    | Arr(items: seq<JsValue>)
    | Other(id: nat)

  /** JavaScript truthiness. */
  predicate Truthy(v: JsValue) {
    match v
    case Undefined => false
    case Null => false
    case Bool(b) => b
    case Num(n) => n != 0.0
    case Str(s) => s != ""
    case Obj(_) => true
    case Arr(_) => true
    case Other(_) => true
  }

  /** A record's fields; a missing key reads as `undefined`. */
  type Record = map<string, JsValue>

  function Get(r: Record, key: string): (v: JsValue)
    ensures key !in r ==> v == Undefined
  {
    if key in r then r[key] else Undefined
  }

  /** Property access `v.key` on a value that is not null or undefined. */
  function Prop(v: JsValue, key: string): (p: JsValue)
    requires !v.Undefined? && !v.Null?
    ensures !v.Obj? ==> p == Undefined
  {
    if v.Obj? then Get(v.props, key) else Undefined
  }

  /** How a JavaScript call ended: it returned a value or threw. */
  datatype Outcome<T> = Returned(value: T) | Threw(reason: string)

  /** A mutable JavaScript object: its identity matters, since the unit store
      keeps the very object it was handed. */
  class JsObject {
    var fields: Record

    constructor (fields: Record)
      ensures this.fields == fields
    {
      this.fields := fields;
    }
  }
}
