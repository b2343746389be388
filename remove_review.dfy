/**
 * DELETE /movies/{movieId}/reviews/{reviewerName}: two guards, then one
 * delete keyed on the movie id and the reviewer. As written, the reviewer is
 * read from the path key `revewerName`, which the route never supplies.
 */
module RemoveReview {
  import opened Wrappers
  import opened Js
  import opened Store
  import opened Http

  const MissingMovieId := Response(404, Message("Message", "Missing movie Id"))
  const MissingReviewerName := Response(404, Message("Message", "Missing reviewer name"))
  const NothingDeleted := Response(404, Message("Message", "Invalid movie Id or Reviewer name"))
  const Removed := Response(200, Text("Removal Succesful"))
  /** `"Removal Unsuccesful \n\n" + { error }`: the object turns into "[object Object]". */
  const RemovalFailed := Response(500, Text("Removal Unsuccesful \n\n[object Object]"))

  /** The path key the handler reads the reviewer from, spelt as in the handler. */
  const ReviewerKey := "revewerName"

  /**
   * The guards and the delete, as written. `parseQuery` stands for
   * `querystring.parse`, whose result is an object and therefore always truthy.
   */
  function Decide(req: Request, parseQuery: string -> map<string, Value>): (o: Outcome)
    ensures o.Issue? <==> UsableMovieId(req.pathParameters).Some? && HasParam(req.pathParameters, ReviewerKey)
    ensures UsableMovieId(req.pathParameters).None? ==> o == Respond(MissingMovieId)
    ensures UsableMovieId(req.pathParameters).Some? && !HasParam(req.pathParameters, ReviewerKey)
      ==> o == Respond(MissingReviewerName)
    ensures o.Issue? ==>
      o.command == Delete(ReviewTable, map["movieId" := Num(UsableMovieId(req.pathParameters).value as real),
                                           "reviewerName" := Obj(parseQuery(req.pathParameters.value[ReviewerKey]))])
  {
    var parameters := req.pathParameters;
    var movieId := MovieIdValue(parameters);
    var name := StringParam(parameters, ReviewerKey);
    var reviewerName := if Truthy(name) then Obj(parseQuery(name.s)) else Undefined;
    if !Truthy(movieId) then Respond(MissingMovieId)
    else if !Truthy(reviewerName) then Respond(MissingReviewerName)
    else Issue(Delete(ReviewTable, map["movieId" := movieId, "reviewerName" := reviewerName]))
  }

  /** `output` is whether the delete's output object is truthy. */
  function Finish(reply: Reply<bool>): (r: Response)
    ensures r == Removed <==> reply == Returned(true)
    ensures r == NothingDeleted <==> reply == Returned(false)
    ensures r == RemovalFailed <==> reply.Threw?
  {
    match reply
    case Returned(output) => if !output then NothingDeleted else Removed
    case Threw(_) => RemovalFailed
  }

  /**
   * The whole handler: "Missing movie Id" first, then "Missing reviewer
   * name"; the store's reply decides the response only when both guards pass.
   */
  function Handle(req: Request, parseQuery: string -> map<string, Value>, reply: Reply<bool>): (r: Response)
    ensures UsableMovieId(req.pathParameters).None? ==> r == MissingMovieId
    ensures UsableMovieId(req.pathParameters).Some? && !HasParam(req.pathParameters, ReviewerKey) ==> r == MissingReviewerName
    ensures UsableMovieId(req.pathParameters).Some? && HasParam(req.pathParameters, ReviewerKey) ==> r == Finish(reply)
  {
    match Decide(req, parseQuery)
    case Respond(r) => r
    case Issue(_) => Finish(reply)
  }

  /**
   * On the route's own parameters (`movieId` and `reviewerName`, no
   * `revewerName`) no delete is ever sent, whatever the values.
   */
  lemma NoDeleteOnRoute(req: Request, parseQuery: string -> map<string, Value>, reply: Reply<bool>)
    requires req.pathParameters.Some? && ReviewerKey !in req.pathParameters.value
    ensures Decide(req, parseQuery).Respond?
    ensures Handle(req, parseQuery, reply) in {MissingMovieId, MissingReviewerName}
  {
  }

  /** The body of the 500 response does not carry the error. */
  lemma FailureLosesError(e1: Fault, e2: Fault)
    ensures Finish(Threw(e1)) == Finish(Threw(e2))
    ensures var t := Finish(Threw(e1)).body.text; |t| >= 19 && t[..19] == "Removal Unsuccesful"
  {
  }

  /**
   * The intended handler: the reviewer read from the route's `reviewerName`
   * and used as the string it is.
   */
  function DecideIntended(req: Request): (o: Outcome)
    ensures o.Issue? <==> UsableMovieId(req.pathParameters).Some? && HasParam(req.pathParameters, "reviewerName")
    ensures UsableMovieId(req.pathParameters).None? ==> o == Respond(MissingMovieId)
    ensures UsableMovieId(req.pathParameters).Some? && !HasParam(req.pathParameters, "reviewerName")
      ==> o == Respond(MissingReviewerName)
    ensures o.Issue? ==>
      o.command == Delete(ReviewTable, map["movieId" := Num(UsableMovieId(req.pathParameters).value as real),
                                           "reviewerName" := Str(req.pathParameters.value["reviewerName"])])
  {
    var parameters := req.pathParameters;
    var movieId := MovieIdValue(parameters);
    var reviewerName := StringParam(parameters, "reviewerName");
    if !Truthy(movieId) then Respond(MissingMovieId)
    else if !Truthy(reviewerName) then Respond(MissingReviewerName)
    else Issue(Delete(ReviewTable, map["movieId" := movieId, "reviewerName" := reviewerName]))
  }

  /**
   * With the intended reading, a route request with a usable movie id and a
   * reviewer name deletes exactly the review keyed by that pair.
   */
  lemma IntendedDeletesRouteReview(req: Request, id: int, name: string)
    requires req.pathParameters.Some? && req.pathParameters.value.Keys >= {"movieId", "reviewerName"}
    requires req.pathParameters.value["movieId"] == DecimalString(id) && req.pathParameters.value["reviewerName"] == name
    requires id != 0 && name != ""
    ensures DecideIntended(req) == Issue(Delete(ReviewTable, map["movieId" := Num(id as real), "reviewerName" := Str(name)]))
  {
    MovieIdOfNumeral(req.pathParameters, id);
  }
}
