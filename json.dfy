/**
 * Request bodies and stored documents as untyped JavaScript values, for the handlers that
 * inspect `typeof`, truthiness and property presence of what the client sent.
 */
module Json {
  import opened Wrappers

  /**
   * A JavaScript value as it reaches a handler: parsed JSON, plus `undefined` and the `Date`
   * objects a handler builds (`None` for an Invalid Date).
   */
  datatype Value =
    | Undefined
    | Null
    | Bool(b: bool)
    | Num(n: real)
    | Str(s: string)
    | Arr(items: seq<Value>)
    | Obj(fields: map<string, Value>)
    | Date(time: Option<real>)

  /** An object's own properties. */
  type Doc = map<string, Value>

  /** `o[key]`: a missing property reads as `undefined`. */
  function Get(o: Doc, key: string): (r: Value)
    ensures key !in o ==> r == Undefined
    ensures key in o ==> r == o[key]
  {
    if key in o then o[key] else Undefined
  }

  /** JavaScript truthiness (NaN is not a `Num` here, so only 0 is a falsy number). */
  predicate Truthy(v: Value)
  {
    match v
    case Undefined => false
    case Null => false
    case Bool(b) => b
    case Num(n) => n != 0.0
    case Str(s) => s != []
    case Arr(_) => true
    case Obj(_) => true
    case Date(_) => true
  }

  /**
   * `v.key` on any value: `None` where it throws (a property read on `null` or `undefined`),
   * the property of an object, and `undefined` on every other value (none of the properties
   * read here exists on a primitive or an array).
   */
  function Property(v: Value, key: string): (r: Option<Value>)
    ensures r.None? <==> v.Undefined? || v.Null?
    ensures v.Obj? ==> r == Some(Get(v.fields, key))
  {
    match v
    case Undefined => None
    case Null => None
    case Obj(fields) => Some(Get(fields, key))
    case _ => Some(Undefined)
  }
}
