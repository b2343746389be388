# Movie review API handlers

A model of the request-handling logic of the movie-review REST API: five
AWS Lambda handlers, and the seed records loaded into the movie and review
tables at deployment. Four of the handlers sit behind API Gateway routes;
the all-reviews handler (lambda/getAllMovieReviews.ts) is attached to none.

Each handler runs a short, fixed chain of guard clauses over the request's
path parameters, query string and body. The chain ends in one of two ways:
an early HTTP response, or exactly one store command (a `Query`, `Scan`,
`Update` or `Delete` description). A final step maps the store's reply to a
status code and body. The model splits every handler the same way:

- `Decide(request)` returns an `Outcome`: `Respond(response)` or `Issue(command)`.
- `Finish(reply)` maps the store's reply to a response. The reply is either the output of the awaited `send` or the error it threw.
- `Handle(request, reply)` composes the two.

The JavaScript behaviour the guards depend on is written out in module
`Js`. That covers ToBoolean truthiness, optional property access and the
global `parseInt` without a radix. `parseInt` skips white space, takes an
optional sign and a `0x` prefix, and reads the longest digit run. `NaN` and
`0` are both falsy, and an empty `Items` array is truthy.

Module `Store` gives a reference meaning to the key-condition and filter
expressions the handlers write. Module `Seed` holds the seed records. With
these, the lemmas in `Seed` and `Scenarios` state which seeded reviews a
handler's command selects.

Modules: `Wrappers` (Option, Result), `Js`, `Store`, `Http` (request,
response, reply and outcome, plus shared parameter reading),
`GetMovieReview`, `UpdateReview`, `RemoveReview`, `GetAllMovieReviews`,
`GetAllMovies`, `Seed`, `Scenarios`.

Foreign calls are parameters of the handler functions:

- `JSON.parse` of the update body is `parse: string -> Result<Value, Fault>`.
- The compiled JSON-schema validator is `valid: Value -> bool`.
- `querystring.parse` is `parseQuery: string -> map<string, Value>`.

The store's reply is an input of `Finish`.

## Model

| member | source | states |
|---|---|---|
| Js.Truthy | lambda/getMovieReview.ts:42 | a value fails `if (!x)` exactly when it is `undefined`, `null`, `false`, NaN, 0 or the empty string; arrays and objects, even empty ones, pass |
| Js.Get | lambda/updateReview.ts:19 | `v?.key` is the property when `v` is an object holding `key`, and `undefined` in every other case |
| Js.NumberOf | lambda/getMovieReview.ts:28 | the Number `parseInt` returns is truthy exactly when it found digits and their value is not zero, so NaN and 0 both fail the guard |
| Js.SkipWhitespace | lambda/getMovieReview.ts:28 | parsing starts at the first character that is not white space, at or after the given position |
| Js.SkipWhitespaceSkipsOnlyWhitespace | lambda/getMovieReview.ts:28 | every character passed over is white space |
| Js.DigitsEnd | lambda/getMovieReview.ts:28 | the run of digits read is the longest one: everything before its end is a digit of the radix, and the character at its end is not |
| Js.ParseDigitsAt | lambda/getMovieReview.ts:28 | there is no value (NaN) exactly when no digit of the radix stands at the position |
| Js.DigitsValueAfter | lambda/getMovieReview.ts:28 | text before a digit run does not change its value |
| Js.DigitsValueBefore | lambda/getMovieReview.ts:28 | text after a digit run does not change its value |
| Js.ParseSignedAtAfter | lambda/getMovieReview.ts:28 | text before a position does not change the numeral read there |
| Js.NatDigitsValue | lambda/getMovieReview.ts:28 | reading the decimal numeral of `n` gives back `n` |
| Js.NaturalNumeral | lambda/getMovieReview.ts:28 | the numeral of a natural number is read back as that number when nothing after it can continue it |
| Js.NegatedNumeral | lambda/getMovieReview.ts:28 | a minus sign before a positive number's numeral reads back as its negation |
| Js.ParseSignedAt | lambda/getMovieReview.ts:28 | a numeral read at a position needs a decimal digit right after the optional sign, is found whenever one stands there outside a `0x` prefix, and is negative only after a minus sign |
| Js.JsParseInt | lambda/getMovieReview.ts:28 | after leading white space and an optional sign, `parseInt` yields a number only if a decimal digit follows, always does when that digit does not begin `0x`, and is negative only after a minus sign; the round trip is Js.ParseIntOfNumeral |
| Js.ParseIntOfNumeral | lambda/getMovieReview.ts:28 | `parseInt` of any integer's numeral gives that integer, followed by anything that cannot continue it, negatives included |
| Js.ParseIntSkipsWhitespace | lambda/getMovieReview.ts:28 | leading white space never changes the result |
| Js.ParseIntWithoutDigits | lambda/getMovieReview.ts:28 | text whose first non-blank character is neither a sign nor a digit gives NaN |
| Js.ParseIntTrailingLetters | lambda/getMovieReview.ts:28 | "1234abc" gives 1234 |
| Js.ParseIntNoExponent | lambda/getMovieReview.ts:28 | "1e3" gives 1 |
| Js.ParseIntMinus | lambda/getMovieReview.ts:28 | "-42" gives -42 |
| Js.ParseIntBlanks | lambda/getMovieReview.ts:28 | "  -42" gives -42 |
| Js.ParseIntMinusZero | lambda/getMovieReview.ts:28 | "-0" gives 0, which is falsy |
| Js.ParseIntHex | lambda/getMovieReview.ts:28 | "0x1A" gives 26 |
| Js.ParseIntLetters | lambda/getMovieReview.ts:28 | "abc" gives NaN |
| Js.ParseIntLoneSign | lambda/getMovieReview.ts:28 | "-" gives NaN |
| Http.Param | lambda/getMovieReview.ts:26-29 | `parameters?.[key]` is the string when the map holds the key, and `undefined` when the map or the key is missing |
| Http.StringParam | lambda/getMovieReview.ts:29 | the guarded parameter is truthy exactly when it is present and non-empty, and is then the string unchanged |
| Http.MovieIdValue | lambda/getMovieReview.ts:28 | the guarded movie id is truthy exactly when `movieId` is present, non-empty and parses to a nonzero integer, and is then that integer |
| Http.UsableMovieId | lambda/getMovieReview.ts:28 | the movie id the guard lets through is exactly what `parseInt` reads from a present, non-empty `movieId`, when that is a number other than 0 |
| Http.MovieIdOfNumeral | lambda/getMovieReview.ts:28 | the numeral of any nonzero integer passes the movie-id guard as that integer |
| Http.PathObject | lambda/getMovieReview.ts:37-39 | the path map as a value is truthy exactly when the request has path parameters; it is then an object with the same keys, each bound to its string, and `null` otherwise |
| Store.Filter | lambda/getAllMovieReviews.ts:43-52 | the reference selection keeps exactly the reviews that satisfy the condition, and never adds any |
| Store.FilterNoneMatch | lambda/getAllMovieReviews.ts:52 | a condition that no review satisfies selects nothing |
| Store.Denote | lambda/getAllMovieReviews.ts:39-56 | only the expressions the handlers write have a meaning, and every movie-scoped one fixes the movie to the number bound to `:m` |
| Store.DigitPrefixIsFirstCharacter | lambda/getAllMovieReviews.ts:43-46 | a one-character prefix test looks at the first character only |
| GetMovieReview.Decide | lambda/getMovieReview.ts:26-183 | 404 "Missing movie Id" exactly when the movie id is unusable; otherwise one Query of the review table with no index. With a reviewer name it is the reviewer-prefix condition on `:a` = the name; without one it is the date-prefix condition on `:a` = the whole path map. `:m` is the parsed id in both cases |
| GetMovieReview.Finish | lambda/getMovieReview.ts:198-227 | 200 exactly when the store returned `Items`, even an empty array, with `data` equal to the `Items` unchanged; absent `Items` gives 404 "Invalid movie  or reviewer name"; a thrown error gives 500 with that error |
| GetMovieReview.Handle | lambda/getMovieReview.ts:23-228 | an unusable movie id is answered "Missing movie Id" whatever the store would reply; a usable one is answered by the store's reply alone |
| GetMovieReview.MissingNameOrYearUnreachable | lambda/getMovieReview.ts:37-61 | "Missing reviewer name or review year" is never the response |
| GetMovieReview.QueryStringIgnored | lambda/getMovieReview.ts:27 | the query string, `minRating` included, and the body change neither the command nor the response |
| GetMovieReview.RejectedRequestIgnoresStore | lambda/getMovieReview.ts:42-50 | an unusable movie id gives "Missing movie Id" whatever the store would reply |
| GetMovieReview.TrailingJunkAccepted | lambda/getMovieReview.ts:28-42 | any nonzero integer's numeral followed by non-digits, such as "1234abc" or "-5", is accepted as that movie id |
| GetMovieReview.DateBranchHasNoStringPrefix | lambda/getMovieReview.ts:165-173 | in the date branch `:a` is an object, so the key condition states no string prefix |
| GetMovieReview.ReviewerBranchCondition | lambda/getMovieReview.ts:174-183 | the reviewer branch selects the movie's reviews whose reviewer name begins with the given name |
| UpdateReview.ParsedBody | lambda/updateReview.ts:18 | a missing or empty body is never parsed and stands as `undefined`; any other body is exactly what `JSON.parse` makes of it, a throw included |
| UpdateReview.ContentOf | lambda/updateReview.ts:19 | the content is `body.content` when that is truthy, and `undefined` otherwise |
| UpdateReview.UpdateCommand | lambda/updateReview.ts:77-89 | the update targets the review table keyed on `movieId` alone, with the reviewer-prefix condition, which means "this movie and a reviewer name beginning with the given name", the update expression `SET content = :c`, and `:c` bound to `{ content }` |
| UpdateReview.Decide | lambda/updateReview.ts:18-89 | guards run in the order body, schema, movie id, reviewer name, content, and the first that fails alone decides the response. A parse error gives 500 with the error. An Update is issued exactly when every guard passes; it is keyed on `movieId` with the reviewer-prefix condition, `SET content = :c`, and `:c` bound to `{ content }` |
| UpdateReview.Finish | lambda/updateReview.ts:92-108 | a completed update gives 201 "Movie review updated" and nothing else does; a thrown error gives 500 with that error |
| UpdateReview.Handle | lambda/updateReview.ts:14-109 | a guard's early response is the handler's response; 201 "Movie review updated" exactly when every guard passes and the update completes; a failed update gives 500 with its error |
| UpdateReview.UpdateShape | lambda/updateReview.ts:77-89 | the Update key holds only `movieId`, and `:c` is the object wrapping the content, not the content |
| UpdateReview.FalsyJsonBodyIsMissing | lambda/updateReview.ts:18-32 | a body that parses to `0`, `false`, `""` or `null` gets "Missing request body" |
| RemoveReview.Decide | lambda/removeReview.ts:15-44 | "Missing movie Id" is checked first, then the reviewer read from `revewerName`; a Delete is issued exactly when both pass, keyed on the parsed id and the parsed query object of the reviewer string |
| RemoveReview.Finish | lambda/removeReview.ts:46-76 | a truthy delete output gives 200 "Removal Succesful", a falsy one 404 "Invalid movie Id or Reviewer name", a thrown error 500 "Removal Unsuccesful …", each exactly in its case |
| RemoveReview.Handle | lambda/removeReview.ts:10-77 | "Missing movie Id" first, then "Missing reviewer name", each whatever the store would reply; only when both guards pass does the store's reply decide |
| RemoveReview.NoDeleteOnRoute | lambda/removeReview.ts:17-44 | a path map without `revewerName` never produces a Delete, whatever its values |
| RemoveReview.FailureLosesError | lambda/removeReview.ts:67-76 | every thrown error gives the same 500 body, which begins "Removal Unsuccesful" |
| RemoveReview.DecideIntended | lambda/removeReview.ts:15-44 | the corrected handler: a Delete exactly when the movie id is usable and `reviewerName` is present and non-empty, keyed on the parsed movie id as a number and the `reviewerName` string unchanged |
| RemoveReview.IntendedDeletesRouteReview | lambda/removeReview.ts:39-44 | with the corrected reading, a route request deletes exactly the review keyed by its movie id and reviewer name string |
| GetAllMovieReviews.Decide | lambda/getAllMovieReviews.ts:12-57 | 404 "Missing movie Id" exactly when the movie id is unusable; otherwise one Scan of the review table. With `minRating` it uses index "minRating", filter movie and content prefix, and `:r` = the `minRating` string; without it the filter is the movie alone |
| GetAllMovieReviews.Finish | lambda/getAllMovieReviews.ts:69-99 | 200 with `data` equal to `Items` exactly when `Items` is present, even empty; absent gives 404 "Invalid movie Id"; a thrown error gives 500 with that error |
| GetAllMovieReviews.Handle | lambda/getAllMovieReviews.ts:8-100 | an unusable movie id is answered "Missing movie Id" whatever the store would reply; a usable one is answered by the store's reply alone |
| GetAllMovieReviews.FilterCondition | lambda/getAllMovieReviews.ts:39-56 | the filter selects the movie's reviews, and with `minRating` only those whose content begins with it |
| GetAllMovieReviews.RatingIsPrefixNotMinimum | lambda/getAllMovieReviews.ts:43-46 | `minRating` "4" keeps a review whose content begins "4" and drops one beginning "5" |
| GetAllMovies.Decide | lambda/getAllMovies.ts:18-57 | a command is always issued: with `minRating`, a Scan of the review table on index "minRating" filtered by content prefix only; otherwise an unfiltered Scan of the movie table |
| GetAllMovies.Finish | lambda/getAllMovies.ts:67-97 | 200 with `data` equal to `Items` exactly when `Items` is present; absent gives 404 "Invalid movie Id"; a thrown error gives 500 with that error |
| GetAllMovies.Handle | lambda/getAllMovies.ts:14-98 | no request is turned away: the store's reply alone decides, with status 200, 404 or 500 |
| GetAllMovies.RatingScanSpansAllMovies | lambda/getAllMovies.ts:43-52 | the rating scan has no movie constraint |
| GetAllMovies.OnlyQueryStringMatters | lambda/getAllMovies.ts:18 | path parameters and body do not change the command |
| Seed.MovieIdsDistinct | seed/movies.ts:3-56 | no two seeded movies share an id |
| Seed.ReviewKeysDistinct | seed/movies.ts:58-89 | no two seeded reviews share a (movieId, reviewerName) key |
| Seed.ReviewsReferToMovies | seed/movies.ts:3-89 | every seeded review belongs to a seeded movie |
| Seed.ReviewRatings | seed/movies.ts:58-89 | every review's content begins with a digit from 1 to 5 |
| Seed.ReviewDates | seed/movies.ts:58-89 | every review date has the form "2023-MM-DD" |
| Seed.KeyOfFirstReview | seed/movies.ts:59-64 | (1234, "Joe Bloggs") is the key of exactly one seeded review |
| Seed.ReviewsOfUnseededMovie | seed/movies.ts:3-89 | a movie id with no seeded movie selects no seeded review |
| Seed.ReviewsOfMovie1234 | seed/movies.ts:59-76 | movie 1234 alone selects its three reviews in seed order |
| Seed.JoePrefixOfMovie1234 | seed/movies.ts:59-76 | movie 1234 with reviewer prefix "Joe" selects Joe Bloggs and Joe Cloggs, in seed order |
| Seed.RatingPrefixOfMovie1234 | seed/movies.ts:65-70 | movie 1234 with content prefix "4" selects Alice Broggs only |
| Seed.RatingPrefixAcrossMovies | seed/movies.ts:58-89 | over all seeded reviews, content prefix "2" selects only Joe Bloggs's review of movie 2345 |
| Scenarios.AllReviewsOfMovie1234 | lambda/getAllMovieReviews.ts:26-89 | for the all-reviews handler, path parameters {movieId: "1234"} select the three reviews of movie 1234, and their items are answered with 200 |
| Scenarios.JoeReviewsOfMovie1234 | lambda/getMovieReview.ts:174-188 | GET /movies/1234/reviews/Joe selects Joe Bloggs and Joe Cloggs |
| Scenarios.Rating4OfMovie1234 | lambda/getAllMovieReviews.ts:39-48 | for the all-reviews handler, path parameters {movieId: "1234"} with query {minRating: "4"} scan index "minRating" and select Alice Broggs only |
| Scenarios.UnknownMovieIsEmptySuccess | lambda/getAllMovieReviews.ts:69-89 | for the all-reviews handler, path parameters {movieId: "9999"} select nothing, and the empty `Items` is answered with 200, not 404 |
| Scenarios.Rating2AcrossMovies | lambda/getAllMovies.ts:43-52 | GET /movies?minRating=2 scans the review table and selects the "2 stars" review of movie 2345 |
| Scenarios.RouteDeleteTurnedAway | lambda/removeReview.ts:15-37 | DELETE /movies/1234/reviews/Joe Bloggs gets "Missing reviewer name" whatever the store would reply |
| Scenarios.RouteDeleteIntended | lambda/removeReview.ts:39-44 | under the corrected reading, the same request deletes the one seeded review keyed (1234, "Joe Bloggs") |

## Left out

- Logging, response headers and async/await are not modelled. Every response carries `content-type: application/json`, and each handler awaits exactly one store call.
- JSON serialisation of responses is not modelled. Response bodies are modelled by shape (`Message`, `SchemaMismatch`, `Data`, `Error`, `Text`), with their keys and texts as written. `JSON.stringify` of the error object is not modelled.
- Three foreign calls are function parameters with no meaning assumed: `JSON.parse` of the update body, the JSON-schema validator of the update body, and `querystring.parse` of the reviewer. The schema itself is not part of this model.
- Store execution is not modelled. Whether the store accepts a command is an input to `Finish`: a key condition on the non-key `reviewDate`, an Update key without the sort key, an index that does not exist. `Store.Denote` and `Store.Filter` give only the meaning of the expressions, which the seed lemmas use. They are not a simulation of the store.
- Environment variables are not resolved: a table is named by the variable the handler reads. The deployment sets `TABLE_NAME` but not `REVIEW_TABLE_NAME` for most handlers (lib/ds-asgn-1-stack.ts:150-153). It also names the review index "ratingIx", while the handlers ask for "minRating" (lib/ds-asgn-1-stack.ts:35).
- Client construction (`createDDbDocClient`, `createDocumentClient`) and the marshalling options are not modelled. So is the difference between the raw client and the document client used by the two scan handlers.
- Seed movies keep only their integer, string and boolean fields. `popularity`, `vote_average` and `genre_ids` are dropped because they play no part in any decision.
- Js.JsParseInt: the result is the exact integer. A numeral too long for a double is not rounded as JavaScript would round it.
- Routing is not modelled: each handler is modelled as called with whatever request it is given. The all-reviews handler (lambda/getAllMovieReviews.ts) has no route in the deployment: `/movies/{movieId}/reviews` has only a POST, to the add-review handler (lib/ds-asgn-1-stack.ts:205-209). Its scenarios are stated by path and query parameters, not by a URL.
- A numeric reviewer segment is not classified as a review date: the regex test that would do it is commented out (lambda/getMovieReview.ts:32-36), so every reviewer segment is used as a name prefix.
- An unknown movie is not answered "not found": an empty `Items` array is truthy, so the answer is 200 with empty data (Scenarios.UnknownMovieIsEmptySuccess).

## Findings

| source | as written | input that shows it | evidently intended | confidence | as-written member | corrected member |
|---|---|---|---|---|---|---|
| lambda/removeReview.ts:17 | the reviewer is read from the path key `revewerName`, which no route defines, and passed through `querystring.parse` | DELETE /movies/1234/reviews/Joe%20Bloggs, with path parameters {movieId: "1234", reviewerName: "Joe Bloggs"}: the answer is 404 "Missing reviewer name" and no Delete is sent | read `reviewerName` and key the Delete on that string | high; not executed | RemoveReview.NoDeleteOnRoute | RemoveReview.IntendedDeletesRouteReview |
