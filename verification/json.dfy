/**
 * The parsed JSON request body and the JSON objects the handler answers with.
 * Numbers are kept as integers: the handler only ever writes the integer status
 * codes into a body and never reads a number from one.
 */
module Json {

  datatype Value =
    | JString(s: string)
    | JNumber(n: int)
    | JBool(b: bool)
    | JNull
    | JArray(items: seq<Value>)
    | JObject(members: map<string, Value>)

  /** A JSON object: the shape of `req.body` and of every response body. */
  type Object = map<string, Value>

  /** `typeof v === 'string'` */
  predicate IsString(v: Value) {
    v.JString?
  }
}
