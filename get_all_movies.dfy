/**
 * GET /movies: with `minRating`, a scan of the review table for content
 * beginning with it; otherwise a scan of the whole movie table. No request
 * is turned away before the store is called.
 */
module GetAllMovies {
  import opened Wrappers
  import opened Js
  import opened Store
  import opened Http

  const NoItems := Response(404, Message("Message", "Invalid movie Id"))

  function Decide(req: Request): (o: Outcome)
    ensures o.Issue?
    ensures HasParam(req.queryStringParameters, "minRating") ==>
      o.command == Scan(ReviewTable, Some("minRating"), Some(ContentPrefix),
                        map[":r" := Str(req.queryStringParameters.value["minRating"])])
    ensures !HasParam(req.queryStringParameters, "minRating") ==>
      o.command == Scan(MovieTable, None, None, map[])
  {
    var queryParams := req.queryStringParameters;
    var minRating := StringParam(queryParams, "minRating");
    if Truthy(minRating) then
      Issue(Scan(ReviewTable, Some("minRating"), Some(ContentPrefix), map[":r" := minRating]))
    else
      Issue(Scan(MovieTable, None, None, map[]))
  }

  function Finish(reply: Reply<Option<seq<Item>>>): (r: Response)
    ensures r.statusCode == 200 <==> reply.Returned? && reply.output.Some?
    ensures r.statusCode == 200 ==> r.body == Data(reply.output.value)
    ensures reply == Returned(None) ==> r == NoItems
    ensures reply.Threw? ==> r == Response(500, Error(reply.error))
  {
    match reply
    case Threw(e) => Response(500, Error(e))
    // `commandOutput.Items` is an array when present, and an array is truthy even when empty.
    case Returned(items) => if items.None? then NoItems else Response(200, Data(items.value))
  }

  /** The whole handler: no guard turns a request away, so the store's reply alone decides the response. */
  function Handle(req: Request, reply: Reply<Option<seq<Item>>>): (r: Response)
    ensures r == Finish(reply)
    ensures r.statusCode in {200, 404, 500}
  {
    match Decide(req)
    case Respond(r) => r
    case Issue(_) => Finish(reply)
  }

  /** The rating scan has no movie constraint: its filter states only the content prefix. */
  lemma RatingScanSpansAllMovies(req: Request)
    requires HasParam(req.queryStringParameters, "minRating")
    ensures ConditionOf(Decide(req).command) ==
      Some(Condition(None, Some((Content, req.queryStringParameters.value["minRating"]))))
  {
  }

  /** Path parameters and body are never read. */
  lemma OnlyQueryStringMatters(req: Request, path: Option<map<string, string>>, body: Option<string>)
    ensures Decide(req.(pathParameters := path, body := body)) == Decide(req)
  {
  }
}
