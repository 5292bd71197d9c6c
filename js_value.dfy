/** The dynamically typed values that reach the validators and schemas: what
    `JSON.parse` and Express hand over as `any`, with JavaScript's truthiness,
    `typeof` and property access. */
module JsValue {

  /** A JavaScript number: finite, NaN or one of the infinities. */
  datatype Number = Finite(r: real) | NaN | Infinity | NegInfinity

  datatype Value =
    | Undefined
    | Null
    | Bool(b: bool)
    | Num(n: Number)
    | Str(s: string)
    | Arr(elems: seq<Value>)
    | Obj(fields: map<string, Value>)

  /** `!!v` */
  predicate Truthy(v: Value)
  {
    match v
    case Undefined => false
    case Null => false
    case Bool(b) => b
    case Num(n) => !(n.NaN? || (n.Finite? && n.r == 0.0))
    case Str(s) => s != ""
    case Arr(_) => true
    case Obj(_) => true
  }

  /** `typeof v === 'object'` */
  predicate IsObjectType(v: Value)
  {
    v.Null? || v.Arr? || v.Obj?
  }

  /** `v.key` on a value that is neither null nor undefined, for a key that
      names no built-in property (none of the keys read here does). */
  function Get(v: Value, key: string): (r: Value)
    requires !v.Undefined? && !v.Null?
    ensures !v.Obj? ==> r == Undefined
    ensures v.Obj? && key !in v.fields ==> r == Undefined
  {
    if v.Obj? && key in v.fields then v.fields[key] else Undefined
  }

  /** `v?.key` */
  function GetOptional(v: Value, key: string): (r: Value)
    ensures v.Undefined? || v.Null? ==> r == Undefined
  {
    if v.Undefined? || v.Null? then Undefined else Get(v, key)
  }

  /** The word V8 puts in "Cannot read properties of ..." for null and undefined. */
  function NullishName(v: Value): string
  {
    if v.Null? then "null" else "undefined"
  }
}
