/**
 * GET /movies/{movieId}/reviews/{reviewerName}: one query of the review
 * table, by reviewer-name prefix when a name is given and otherwise by a
 * "review date" prefix whose operand is the whole path-parameter map.
 */
module GetMovieReview {
  import opened Wrappers
  import opened Js
  import opened Store
  import opened Http

  const MissingMovieId := Response(404, Message("Message", "Missing movie Id"))
  const MissingNameOrYear := Response(404, Message("Message", "Missing reviewer name or review year"))
  const NoItems := Response(404, Message("Message", "Invalid movie  or reviewer name"))

  /**
   * The guard chain and the choice of key condition. The query string is
   * read by the handler but never consulted.
   */
  function Decide(req: Request): (o: Outcome)
    ensures o.Respond? <==> UsableMovieId(req.pathParameters).None?
    ensures o.Respond? ==> o.response == MissingMovieId
    ensures o.Issue? ==>
      var params := req.pathParameters.value;
      var id := Num(UsableMovieId(req.pathParameters).value as real);
      o.command == if HasParam(req.pathParameters, "reviewerName")
        then Query(ReviewTable, None, MovieAndReviewerPrefix, map[":m" := id, ":a" := Str(params["reviewerName"])])
        else Query(ReviewTable, None, MovieAndDatePrefix, map[":m" := id, ":a" := PathObject(req.pathParameters)])
  {
    var parameters := req.pathParameters;
    var movieId := MovieIdValue(parameters);
    var reviewerName := StringParam(parameters, "reviewerName");
    var reviewDate := if !Truthy(reviewerName) then PathObject(parameters) else Undefined;
    if !Truthy(movieId) then Respond(MissingMovieId)
    else if !Truthy(reviewerName) && !Truthy(reviewDate) then Respond(MissingNameOrYear)
    else if Truthy(reviewDate) then
      Issue(Query(ReviewTable, None, MovieAndDatePrefix, map[":m" := movieId, ":a" := reviewDate]))
    else
      Issue(Query(ReviewTable, None, MovieAndReviewerPrefix, map[":m" := movieId, ":a" := reviewerName]))
  }

  /** The response to the query's reply: absent `Items` is 404, present `Items` (even empty) is 200. */
  function Finish(reply: Reply<Option<seq<Item>>>): (r: Response)
    ensures r.statusCode == 200 <==> reply.Returned? && reply.output.Some?
    ensures r.statusCode == 200 ==> r.body == Data(reply.output.value)
    ensures reply == Returned(None) ==> r == NoItems
    ensures reply.Threw? ==> r == Response(500, Error(reply.error))
  {
    match reply
    case Threw(e) => Response(500, Error(e))
    // `commandOutput.Items` is an array when present, and an array is truthy even when empty.
    case Returned(items) => if items.None? then NoItems else Response(200, Data(items.value))
  }

  /** The whole handler: the store's reply decides the response exactly when the movie id is usable. */
  function Handle(req: Request, reply: Reply<Option<seq<Item>>>): (r: Response)
    ensures UsableMovieId(req.pathParameters).None? ==> r == MissingMovieId
    ensures UsableMovieId(req.pathParameters).Some? ==> r == Finish(reply)
  {
    match Decide(req)
    case Respond(r) => r
    case Issue(_) => Finish(reply)
  }

  /** "Missing reviewer name or review year" is never the answer: a request that gets past the movie-id guard has a path map, and that map is the truthy `reviewDate` whenever the name is missing. */
  lemma MissingNameOrYearUnreachable(req: Request, reply: Reply<Option<seq<Item>>>)
    ensures Decide(req) != Respond(MissingNameOrYear)
    ensures Handle(req, reply) != MissingNameOrYear
  {
  }

  /** The query-string parameters (`minRating` among them) and the body change nothing. */
  lemma QueryStringIgnored(req: Request, query: Option<map<string, string>>, body: Option<string>, reply: Reply<Option<seq<Item>>>)
    ensures Decide(req.(queryStringParameters := query, body := body)) == Decide(req)
    ensures Handle(req.(queryStringParameters := query, body := body), reply) == Handle(req, reply)
  {
  }

  /** A request turned away by a guard gets the same answer whatever the store would have replied. */
  lemma RejectedRequestIgnoresStore(req: Request, reply1: Reply<Option<seq<Item>>>, reply2: Reply<Option<seq<Item>>>)
    requires UsableMovieId(req.pathParameters).None?
    ensures Handle(req, reply1) == Handle(req, reply2) == MissingMovieId
  {
  }

  /**
   * Any numeral of a nonzero integer followed by characters that cannot
   * continue it ("1234abc", "-5") is taken as that movie id.
   */
  lemma TrailingJunkAccepted(req: Request, n: int, junk: string)
    requires n != 0 && (junk == [] || !IsDecimalDigit(junk[0]))
    requires req.pathParameters.Some? && req.pathParameters.value.Keys >= {"movieId"}
    requires req.pathParameters.value["movieId"] == DecimalString(n) + junk
    ensures Decide(req).Issue? && Decide(req).command.values[":m"] == Num(n as real)
  {
    ParseIntOfNumeral(n, junk);
    assert UsableMovieId(req.pathParameters) == Some(n);
  }

  /** The date branch binds the path map itself, an object, so its key condition states no string prefix. */
  lemma DateBranchHasNoStringPrefix(req: Request)
    requires UsableMovieId(req.pathParameters).Some? && !HasParam(req.pathParameters, "reviewerName")
    ensures Decide(req).command.values[":a"].Obj?
    ensures ConditionOf(Decide(req).command) == None
  {
  }

  /** The reviewer branch states "this movie, and a reviewer name beginning with the given name". */
  lemma ReviewerBranchCondition(req: Request)
    requires UsableMovieId(req.pathParameters).Some? && HasParam(req.pathParameters, "reviewerName")
    ensures ConditionOf(Decide(req).command) ==
      Some(Condition(Some(UsableMovieId(req.pathParameters).value as real),
                     Some((ReviewerName, req.pathParameters.value["reviewerName"]))))
  {
  }
}
