/**
 * The handler for all reviews of one movie (meant for GET
 * /movies/{movieId}/reviews, though no route of the deployment reaches it):
 * one scan of the review table, restricted to the movie and, when
 * `minRating` is given, to reviews whose content begins with that string.
 */
module GetAllMovieReviews {
  import opened Wrappers
  import opened Js
  import opened Store
  import opened Http

  const MissingMovieId := Response(404, Message("Message", "Missing movie Id"))
  const NoItems := Response(404, Message("Message", "Invalid movie Id"))

  /** The movie-id guard and the choice of filter. */
  function Decide(req: Request): (o: Outcome)
    ensures o.Respond? <==> UsableMovieId(req.pathParameters).None?
    ensures o.Respond? ==> o.response == MissingMovieId
    ensures o.Issue? ==>
      var id := Num(UsableMovieId(req.pathParameters).value as real);
      var query := req.queryStringParameters;
      o.command == if HasParam(query, "minRating")
        then Scan(ReviewTable, Some("minRating"), Some(MovieAndContentPrefix),
                  map[":m" := id, ":r" := Str(query.value["minRating"])])
        else Scan(ReviewTable, None, Some(MovieIs), map[":m" := id])
  {
    var parameters := req.pathParameters;
    var movieId := MovieIdValue(parameters);
    var queryParams := req.queryStringParameters;
    var minRating := StringParam(queryParams, "minRating");
    if !Truthy(movieId) then Respond(MissingMovieId)
    else if Truthy(minRating) then
      Issue(Scan(ReviewTable, Some("minRating"), Some(MovieAndContentPrefix), map[":m" := movieId, ":r" := minRating]))
    else
      Issue(Scan(ReviewTable, None, Some(MovieIs), map[":m" := movieId]))
  }

  function Finish(reply: Reply<Option<seq<Item>>>): (r: Response)
    ensures r.statusCode == 200 <==> reply.Returned? && reply.output.Some?
    ensures r.statusCode == 200 ==> r.body == Data(reply.output.value)
    ensures reply == Returned(None) ==> r == NoItems
    ensures reply.Threw? ==> r == Response(500, Error(reply.error))
  {
    match reply
    case Threw(e) => Response(500, Error(e))
    // `commandOutput.Items` is an array when present, and an array is truthy even when empty.
    case Returned(items) => if items.None? then NoItems else Response(200, Data(items.value))
  }

  /** The whole handler: the store's reply decides the response exactly when the movie id is usable. */
  function Handle(req: Request, reply: Reply<Option<seq<Item>>>): (r: Response)
    ensures UsableMovieId(req.pathParameters).None? ==> r == MissingMovieId
    ensures UsableMovieId(req.pathParameters).Some? ==> r == Finish(reply)
  {
    match Decide(req)
    case Respond(r) => r
    case Issue(_) => Finish(reply)
  }

  /** The filter states "this movie" and, with `minRating`, "content begins with the minRating string". */
  lemma FilterCondition(req: Request)
    requires UsableMovieId(req.pathParameters).Some?
    ensures var id := UsableMovieId(req.pathParameters).value as real;
      ConditionOf(Decide(req).command) ==
        if HasParam(req.queryStringParameters, "minRating")
        then Some(Condition(Some(id), Some((Content, req.queryStringParameters.value["minRating"]))))
        else Some(Condition(Some(id), None))
  {
    if HasParam(req.queryStringParameters, "minRating") {
      assert MovieAndContentPrefix != MovieIs;
      assert MovieAndContentPrefix != MovieAndReviewerPrefix;
      assert MovieAndContentPrefix != MovieAndDatePrefix;
    }
  }

  /** `minRating` "4" keeps content starting with "4" and drops content starting with "5", though 5 is the higher rating. */
  lemma RatingIsPrefixNotMinimum(req: Request, r4: Review, r5: Review)
    requires UsableMovieId(req.pathParameters).Some?
    requires req.queryStringParameters == Some(map["minRating" := "4"])
    requires r4.movieId == r5.movieId == UsableMovieId(req.pathParameters).value
    requires |r4.content| > 0 && r4.content[0] == '4'
    requires |r5.content| > 0 && r5.content[0] == '5'
    ensures var c := ConditionOf(Decide(req).command).value;
      Matches(c, r4) && !Matches(c, r5)
  {
    FilterCondition(req);
    DigitPrefixIsFirstCharacter(r4.content, '4');
    DigitPrefixIsFirstCharacter(r5.content, '4');
  }
}
