/**
 * PUT /movies/{movieId}/reviews/{reviewerName}: five guards in a fixed
 * order, then one update of the review table's `content`.
 */
module UpdateReview {
  import opened Wrappers
  import opened Js
  import opened Store
  import opened Http

  const MissingBody := Response(500, Message("message", "Missing request body"))
  const WrongShape := Response(500, SchemaMismatch("Incorrect type. Must match Movie review schema", "MovieReview"))
  const MissingMovieId := Response(404, Message("Message", "Missing movie Id"))
  const MissingReviewerName := Response(404, Message("Message", "Missing reviewer name"))
  const MissingContent := Response(500, Message("message", "Missing review content to update"))
  const Updated := Response(201, Message("message", "Movie review updated"))

  /**
   * `event.body ? JSON.parse(event.body) : undefined`. `parse` stands for
   * `JSON.parse`, which may throw.
   */
  function ParsedBody(req: Request, parse: string -> Result<Value, Fault>): (r: Result<Value, Fault>)
    ensures req.body.None? || req.body.value == "" ==> r == Success(Undefined)
    ensures req.body.Some? && req.body.value != "" ==> r == parse(req.body.value)
  {
    if Truthy(if req.body.Some? then Str(req.body.value) else Undefined) then parse(req.body.value)
    else Success(Undefined)
  }

  /** `body?.content ? body.content : undefined` */
  function ContentOf(body: Value): (v: Value)
    ensures Truthy(Get(body, "content")) ==> v == Get(body, "content")
    ensures !Truthy(Get(body, "content")) ==> v == Undefined
    ensures Truthy(v) <==> Truthy(Get(body, "content"))
  {
    var c := Get(body, "content");
    if Truthy(c) then c else Undefined
  }

  /** The update a request that passes every guard sends. */
  function UpdateCommand(id: int, reviewerName: string, content: Value): (c: Command)
    ensures c.Update? && c.table == ReviewTable && c.key == map["movieId" := Num(id as real)]
    ensures Denote(c.condition, c.values) == Some(Condition(Some(id as real), Some((ReviewerName, reviewerName))))
    ensures ":c" in c.values && c.values[":c"] == Obj(map["content" := content])
    ensures c.condition == MovieAndReviewerPrefix && c.update == SetContent
  {
    assert MovieAndReviewerPrefix != MovieIs;
    Update(ReviewTable, map["movieId" := Num(id as real)], MovieAndReviewerPrefix, SetContent,
           map[":m" := Num(id as real), ":a" := Str(reviewerName), ":c" := Obj(map["content" := content])])
  }

  /**
   * The guard ladder: body, schema, movie id, reviewer name, content; the
   * first that fails decides the response. `valid` stands for the compiled
   * JSON-schema check of the body. A body that `JSON.parse` rejects throws,
   * and the handler's catch answers 500 with the error.
   */
  function Decide(req: Request, parse: string -> Result<Value, Fault>, valid: Value -> bool): (o: Outcome)
    ensures req.body.None? || req.body.value == "" ==> o == Respond(MissingBody)
    ensures ParsedBody(req, parse).Failure? ==> o == Respond(Response(500, Error(ParsedBody(req, parse).error)))
    ensures ParsedBody(req, parse).Success? ==>
      var body := ParsedBody(req, parse).value;
      var params := req.pathParameters;
      && (!Truthy(body) ==> o == Respond(MissingBody))
      && (Truthy(body) && !valid(body) ==> o == Respond(WrongShape))
      && (Truthy(body) && valid(body) && UsableMovieId(params).None? ==> o == Respond(MissingMovieId))
      && (Truthy(body) && valid(body) && UsableMovieId(params).Some? && !HasParam(params, "reviewerName")
          ==> o == Respond(MissingReviewerName))
      && ((Truthy(body) && valid(body) && UsableMovieId(params).Some? && HasParam(params, "reviewerName")
           && !Truthy(Get(body, "content"))) ==> o == Respond(MissingContent))
    ensures o.Issue? <==>
      && ParsedBody(req, parse).Success?
      && var body := ParsedBody(req, parse).value;
      && Truthy(body) && valid(body)
      && UsableMovieId(req.pathParameters).Some?
      && HasParam(req.pathParameters, "reviewerName")
      && Truthy(Get(body, "content"))
    ensures o.Issue? ==>
      o.command == UpdateCommand(UsableMovieId(req.pathParameters).value,
                                 req.pathParameters.value["reviewerName"],
                                 Get(ParsedBody(req, parse).value, "content"))
  {
    match ParsedBody(req, parse)
    case Failure(e) => Respond(Response(500, Error(e)))
    case Success(body) =>
      var content := ContentOf(body);
      var parameters := req.pathParameters;
      var movieId := MovieIdValue(parameters);
      var reviewerName := StringParam(parameters, "reviewerName");
      if !Truthy(body) then Respond(MissingBody)
      else if !valid(body) then Respond(WrongShape)
      else if !Truthy(movieId) then Respond(MissingMovieId)
      else if !Truthy(reviewerName) then Respond(MissingReviewerName)
      else if !Truthy(content) then Respond(MissingContent)
      else Issue(Update(ReviewTable, map["movieId" := movieId], MovieAndReviewerPrefix, SetContent,
                        map[":m" := movieId, ":a" := reviewerName, ":c" := Obj(map["content" := content])]))
  }

  /** The update's output is not inspected: it completes with 201 or throws with 500. */
  function Finish(reply: Reply<()>): (r: Response)
    ensures reply.Returned? <==> r == Updated
    ensures reply.Threw? ==> r == Response(500, Error(reply.error))
  {
    match reply
    case Returned(_) => Updated
    case Threw(e) => Response(500, Error(e))
  }

  /**
   * The whole handler: 201 exactly when every guard passes and the update
   * completes; a failed update gives 500 with its error.
   */
  function Handle(req: Request, parse: string -> Result<Value, Fault>, valid: Value -> bool, reply: Reply<()>): (r: Response)
    ensures Decide(req, parse, valid).Respond? ==> r == Decide(req, parse, valid).response
    ensures r == Updated <==> Decide(req, parse, valid).Issue? && reply.Returned?
    ensures Decide(req, parse, valid).Issue? && reply.Threw? ==> r == Response(500, Error(reply.error))
  {
    match Decide(req, parse, valid)
    case Respond(r) => r
    case Issue(_) => Finish(reply)
  }

  /**
   * The update names only the partition key, and `:c` is bound to the object
   * `{ content }`, not to the content itself.
   */
  lemma UpdateShape(req: Request, parse: string -> Result<Value, Fault>, valid: Value -> bool)
    requires Decide(req, parse, valid).Issue?
    ensures var c := Decide(req, parse, valid).command;
      && c.Update? && c.key.Keys == {"movieId"}
      && c.values[":c"].Obj? && c.values[":c"].props.Keys == {"content"}
      && c.values[":c"] != Get(ParsedBody(req, parse).value, "content")
  {
  }

  /** A body that parses to a falsy JSON value (`0`, `false`, `""`, `null`) is reported as missing. */
  lemma FalsyJsonBodyIsMissing(req: Request, parse: string -> Result<Value, Fault>, valid: Value -> bool)
    requires req.body.Some? && req.body.value != ""
    requires parse(req.body.value) in {Success(Num(0.0)), Success(Bool(false)), Success(Str("")), Success(Null)}
    ensures Decide(req, parse, valid) == Respond(MissingBody)
  {
  }
}
