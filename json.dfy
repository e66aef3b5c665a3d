/**
 * JSON values as the route handlers and the server action receive them,
 * and the two pieces of JavaScript semantics the handlers rely on:
 * property access on a parsed body and truthiness.
 */
module Json {

  import opened Wrappers

  /** A parsed JSON value. Numbers are finite, so NaN and Infinity do not occur. */
  datatype Value =
    | Null
    | Bool(b: bool)
    | Num(n: real)
    | Str(s: string)
    | Arr(items: seq<Value>)
    | Obj(fields: map<string, Value>)

  /** The three results of evaluating `v.k` in JavaScript for a JSON value `v`. */
  datatype Access = TypeError | Undefined | Defined(value: Value)

  /**
   * `v.k`: reading a property of null throws; an object yields its own
   * field or undefined; strings, numbers, booleans and arrays have no
   * field of the names used here, so they yield undefined.
   */
  function Member(v: Value, k: string): (r: Access)
    ensures r.TypeError? <==> v.Null?
    ensures r.Defined? <==> v.Obj? && k in v.fields
    ensures r.Defined? ==> r.value == v.fields[k]
  {
    match v
    case Null => TypeError
    case Obj(m) => if k in m then Defined(m[k]) else Undefined
    case _ => Undefined
  }

  /** JavaScript truthiness of a JSON value: false, 0, "" and null are falsy. */
  predicate Truthy(v: Value)
  {
    match v
    case Null => false
    case Bool(b) => b
    case Num(n) => n != 0.0
    case Str(s) => s != ""
    case Arr(_) => true
    case Obj(_) => true
  }

  /** `m[k]` as a string, if the field is present and holds a string. */
  function StringAt(m: map<string, Value>, k: string): (r: Option<string>)
    ensures r.Some? <==> k in m && m[k].Str?
    ensures r.Some? ==> m[k] == Str(r.value)
  {
    if k in m && m[k].Str? then Some(m[k].s) else None
  }

  /** `m[k]` as a number, if the field is present and holds a number. */
  function NumberAt(m: map<string, Value>, k: string): (r: Option<real>)
    ensures r.Some? <==> k in m && m[k].Num?
    ensures r.Some? ==> m[k] == Num(r.value)
  {
    if k in m && m[k].Num? then Some(m[k].n) else None
  }

  /** `m[k]` as a boolean, if the field is present and holds a boolean. */
  function BoolAt(m: map<string, Value>, k: string): (r: Option<bool>)
    ensures r.Some? <==> k in m && m[k].Bool?
    ensures r.Some? ==> m[k] == Bool(r.value)
  {
    if k in m && m[k].Bool? then Some(m[k].b) else None
  }
}

/** HTTP responses produced by the two storage routes. */
module Http {

  datatype Body =
    | ErrorBody(error: string)
    | MessageBody(message: string)
    | PresignedBody(preSignedUrl: string, key: string)

  datatype Response = Response(status: nat, body: Body)
}
