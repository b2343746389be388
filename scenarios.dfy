/**
 * Requests against the seed data, end to end: the command each handler
 * sends, what its condition selects from the seeded reviews, and the
 * response to the items the store returns.
 */
module Scenarios {
  import opened Wrappers
  import opened Js
  import opened Store
  import opened Http
  import opened Seed
  import GetMovieReview
  import GetAllMovieReviews
  import GetAllMovies
  import RemoveReview

  /** Reviews as the items a query or scan returns. */
  function AsItems(rs: seq<Review>): (items: seq<Item>)
    ensures |items| == |rs| && forall i :: 0 <= i < |rs| ==> items[i] == ReviewItem(rs[i])
  {
    seq(|rs|, i requires 0 <= i < |rs| => ReviewItem(rs[i]))
  }

  /** The path segment "1234" is the numeral of the seeded movie 1234. */
  lemma Numerals()
    ensures DecimalString(1234) == "1234"
  {
    assert NatDigits(1) == "1" && NatDigits(12) == "12" && NatDigits(123) == "123";
  }

  /** The path segment "9999" is the numeral of a movie that was never seeded. */
  lemma UnseededNumeral()
    ensures DecimalString(9999) == "9999"
  {
    assert NatDigits(9) == "9" && NatDigits(99) == "99" && NatDigits(999) == "999";
  }

  /** Path parameters {movieId: "1234"} for the all-reviews handler: all three reviews of movie 1234, in seed order, answered with 200. */
  lemma AllReviewsOfMovie1234(req: Request)
    requires req == Request(Some(map["movieId" := "1234"]), None, None)
    ensures var o := GetAllMovieReviews.Decide(req);
      && o.Issue? && ConditionOf(o.command).Some?
      && Filter(movieReviews, ConditionOf(o.command).value) == movieReviews[..3]
      && GetAllMovieReviews.Handle(req, Returned(Some(AsItems(movieReviews[..3])))) ==
         Response(200, Data(AsItems(movieReviews[..3])))
  {
    Numerals();
    MovieIdOfNumeral(req.pathParameters, 1234);
    assert !HasParam(req.queryStringParameters, "minRating");
    GetAllMovieReviews.FilterCondition(req);
    var c := Condition(Some(1234 as real), None);
    assert ConditionOf(GetAllMovieReviews.Decide(req).command) == Some(c);
    ReviewsOfMovie1234();
  }

  /** GET /movies/1234/reviews/Joe: a reviewer-name prefix query that selects Joe Bloggs and Joe Cloggs. */
  lemma JoeReviewsOfMovie1234(req: Request)
    requires req == Request(Some(map["movieId" := "1234", "reviewerName" := "Joe"]), None, None)
    ensures var o := GetMovieReview.Decide(req);
      && o.Issue? && ConditionOf(o.command).Some?
      && Filter(movieReviews, ConditionOf(o.command).value) == [movieReviews[0], movieReviews[2]]
  {
    Numerals();
    MovieIdOfNumeral(req.pathParameters, 1234);
    GetMovieReview.ReviewerBranchCondition(req);
    JoePrefixOfMovie1234();
  }

  /** Path parameters {movieId: "1234"} and query {minRating: "4"} for the all-reviews handler: only the review whose content starts with "4". */
  lemma Rating4OfMovie1234(req: Request)
    requires req == Request(Some(map["movieId" := "1234"]), Some(map["minRating" := "4"]), None)
    ensures var o := GetAllMovieReviews.Decide(req);
      && o.Issue? && o.command.index == Some("minRating") && ConditionOf(o.command).Some?
      && Filter(movieReviews, ConditionOf(o.command).value) == [movieReviews[1]]
  {
    Numerals();
    MovieIdOfNumeral(req.pathParameters, 1234);
    GetAllMovieReviews.FilterCondition(req);
    RatingPrefixOfMovie1234();
  }

  /**
   * Path parameters {movieId: "9999"} for the all-reviews handler: nothing
   * is selected, and the empty `Items`
   * array is truthy, so the answer is 200 with no data rather than 404.
   */
  lemma UnknownMovieIsEmptySuccess(req: Request)
    requires req == Request(Some(map["movieId" := "9999"]), None, None)
    ensures var o := GetAllMovieReviews.Decide(req);
      && o.Issue? && ConditionOf(o.command).Some?
      && Filter(movieReviews, ConditionOf(o.command).value) == []
      && GetAllMovieReviews.Handle(req, Returned(Some([]))) == Response(200, Data([]))
  {
    UnseededNumeral();
    MovieIdOfNumeral(req.pathParameters, 9999);
    GetAllMovieReviews.FilterCondition(req);
    ReviewsOfUnseededMovie(9999);
  }

  /** GET /movies?minRating=2: the rating scan ignores the movie and finds the "2 stars" review of movie 2345. */
  lemma Rating2AcrossMovies(req: Request)
    requires req == Request(None, Some(map["minRating" := "2"]), None)
    ensures var o := GetAllMovies.Decide(req);
      && o.command.table == ReviewTable && ConditionOf(o.command).Some?
      && Filter(movieReviews, ConditionOf(o.command).value) == [movieReviews[3]]
  {
    GetAllMovies.RatingScanSpansAllMovies(req);
    RatingPrefixAcrossMovies();
  }

  /** DELETE /movies/1234/reviews/Joe%20Bloggs on the route as provisioned: turned away before the store. */
  lemma RouteDeleteTurnedAway(req: Request, parseQuery: string -> map<string, Value>, reply: Reply<bool>)
    requires req == Request(Some(map["movieId" := "1234", "reviewerName" := "Joe Bloggs"]), None, None)
    ensures RemoveReview.Handle(req, parseQuery, reply) == RemoveReview.MissingReviewerName
  {
    Numerals();
    MovieIdOfNumeral(req.pathParameters, 1234);
    assert !HasParam(req.pathParameters, RemoveReview.ReviewerKey);
    assert RemoveReview.Decide(req, parseQuery) == Respond(RemoveReview.MissingReviewerName);
  }

  /**
   * The same request under the intended reading: a delete keyed by
   * (1234, "Joe Bloggs"), a key that exactly one seeded review carries.
   */
  lemma RouteDeleteIntended(req: Request)
    requires req == Request(Some(map["movieId" := "1234", "reviewerName" := "Joe Bloggs"]), None, None)
    ensures RemoveReview.DecideIntended(req) ==
      Issue(Delete(ReviewTable, map["movieId" := Num(1234 as real), "reviewerName" := Str("Joe Bloggs")]))
    ensures forall i :: 0 <= i < |movieReviews| ==>
      (movieReviews[i].movieId == 1234 && movieReviews[i].reviewerName == "Joe Bloggs" <==> i == 0)
  {
    Numerals();
    RemoveReview.IntendedDeletesRouteReview(req, 1234, "Joe Bloggs");
    KeyOfFirstReview();
  }
}
