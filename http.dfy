/**
 * The proxy-integration event a handler receives, the response it returns,
 * the store's reply to the one command a handler sends, and the reading of
 * path and query-string parameters that every handler shares.
 */
module Http {
  import opened Wrappers
  import opened Js
  import opened Store

  /** The parts of the gateway event the handlers read; each map is `null` when the request has none. */
  datatype Request = Request(
    pathParameters: Option<map<string, string>>,
    queryStringParameters: Option<map<string, string>>,
    body: Option<string>)

  /** An error thrown inside the handler's `try` block. */
  datatype Fault = Fault(name: string, message: string)

  /** The JSON body of a response, by shape. */
  datatype Body =
    | Message(key: string, text: string)        // { <key>: <text> }, with `Message` or `message` as written
    | SchemaMismatch(text: string, schema: string)  // { message, schema }
    | Data(items: seq<Item>)                     // { data: Items }
    | Error(error: Fault)                        // { error }
    | Text(text: string)                         // a bare JSON string

  /** Status code and body; every response also carries `content-type: application/json`. */
  datatype Response = Response(statusCode: int, body: Body)

  /** What the awaited `send` gives back: its output, or the error it throws. */
  datatype Reply<+T> = Returned(output: T) | Threw(error: Fault)

  /** Where a handler's guard chain ends: an early response, or the one command it sends. */
  datatype Outcome = Respond(response: Response) | Issue(command: Command)

  /** `parameters?.[key]`: the string under the key, `undefined` when the map or the key is missing. */
  function Param(params: Option<map<string, string>>, key: string): (v: Value)
    ensures v.Undefined? || v.Str?
    ensures v.Str? <==> params.Some? && key in params.value
    ensures v.Str? ==> v.s == params.value[key]
  {
    if params.Some? && key in params.value then Str(params.value[key]) else Undefined
  }

  /** A parameter that is present and not the empty string. */
  predicate HasParam(params: Option<map<string, string>>, key: string) {
    params.Some? && key in params.value && params.value[key] != ""
  }

  /** `parameters?.[key] ? parameters[key] : undefined`: an empty string is dropped. */
  function StringParam(params: Option<map<string, string>>, key: string): (v: Value)
    ensures Truthy(v) <==> HasParam(params, key)
    ensures Truthy(v) ==> v == Str(params.value[key])
    ensures !Truthy(v) ==> v == Undefined
  {
    var p := Param(params, key);
    if Truthy(p) then p else Undefined
  }

  /** `parameters?.movieId ? parseInt(parameters.movieId) : undefined` */
  function MovieIdValue(params: Option<map<string, string>>): (v: Value)
    ensures Truthy(v) <==> UsableMovieId(params).Some?
    ensures Truthy(v) ==> v == Num(UsableMovieId(params).value as real)
  {
    var p := Param(params, "movieId");
    if Truthy(p) then NumberOf(JsParseInt(p.s)) else Undefined
  }

  /**
   * The movie id the guards let through, stated without truthiness: a
   * non-empty `movieId` parameter on which `parseInt` finds a nonzero integer.
   */
  function UsableMovieId(params: Option<map<string, string>>): (r: Option<int>)
    ensures r.Some? ==> r.value != 0 && HasParam(params, "movieId") && JsParseInt(params.value["movieId"]) == r
    ensures HasParam(params, "movieId") && JsParseInt(params.value["movieId"]) != Some(0) ==>
      r == JsParseInt(params.value["movieId"])
  {
    if HasParam(params, "movieId") then
      match JsParseInt(params.value["movieId"])
      case Some(n) => if n != 0 then Some(n) else None
      case None => None
    else None
  }

  /** The numeral of a nonzero integer, as `movieId`, passes the guard as that integer. */
  lemma MovieIdOfNumeral(params: Option<map<string, string>>, n: int)
    requires params.Some? && "movieId" in params.value && params.value["movieId"] == DecimalString(n)
    requires n != 0
    ensures UsableMovieId(params) == Some(n)
  {
    ParseIntOfNumeral(n, "");
    assert DecimalString(n) + "" == DecimalString(n);
  }

  /** The path-parameter map as the object the handler holds; `null` when there is none. */
  function PathObject(params: Option<map<string, string>>): (v: Value)
    ensures Truthy(v) <==> params.Some?
    ensures params.None? ==> v == Null
    ensures params.Some? ==> v.Obj? && v.props.Keys == params.value.Keys
    ensures params.Some? ==> forall k :: k in params.value ==> v.props[k] == Str(params.value[k])
  {
    if params.Some? then Obj(map k | k in params.value :: Str(params.value[k])) else Null
  }
}
